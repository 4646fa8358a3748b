// What the handlers of instruction-types.js do, stated flag by flag and
// cell by cell.

module HandlerProperties {
  import opened JsNumber
  import opened CpuState
  import opened InstructionTypes

  // ---- one step of each group ----

  // Each lemma states `Apply` of a handler through its group's function; the
  // lemmas below compose these one step at a time.

  lemma AccumulatorStep(h: Handler, m: Machine, address: Num, v: Num)
    requires GroupOf(h) == Accumulator && AccumulatorValue(h, m.A, Read(m.memory, address)) == v
    ensures Apply(h, m, address) == Ran(m.(A := v))
  {
  }

  lemma JumpStep(h: Handler, m: Machine, address: Num, target: Num)
    requires GroupOf(h) == Jump && JumpTarget(h, m.statusRegister, m.programCounter, address) == target
    ensures Apply(h, m, address) == Ran(m.(programCounter := target))
  {
  }

  lemma StatusStep(h: Handler, m: Machine, address: Num, v: Num)
    requires GroupOf(h) == Status && StatusValue(h, m, Read(m.memory, address)) == v
    ensures Apply(h, m, address) == Ran(m.(statusRegister := v))
  {
  }

  lemma MemoryStep(h: Handler, m: Machine, address: Num, v: Num)
    requires GroupOf(h) == MemoryCell && StoredValue(h, m, Read(m.memory, address)) == v
    ensures Apply(h, m, address) == Ran(m.(memory := Write(m.memory, address, v)))
  {
  }

  lemma IndexStep(h: Handler, m: Machine, address: Num, after: Machine)
    requires GroupOf(h) == Index && IndexResult(h, m, Read(m.memory, address)) == after
    ensures Apply(h, m, address) == Ran(after)
  {
  }

  lemma StackStep(h: Handler, m: Machine, address: Num, after: Machine)
    requires GroupOf(h) == Stack && StackResult(h, m) == after
    ensures Apply(h, m, address) == Ran(after)
  {
  }

  /** A memory-cell step inside memory stores its value modulo 256. */
  lemma CellStep(h: Handler, m: Machine, address: Num, r: Byte)
    requires GroupOf(h) == MemoryCell && InRange(address)
    requires ToUint8(StoredValue(h, m, Read(m.memory, address))) == r
    ensures Apply(h, m, address) == Ran(m.(memory := m.memory[address.i := r]))
  {
    MemoryStep(h, m, address, StoredValue(h, m, Read(m.memory, address)));
  }

  /** The handlers that only write the status register. */
  lemma FlagGroup(h: Handler)
    requires h in {CLC, CLD, CLI, CLV, SEC, SED, SEI, CMP, CPX, CPY}
    ensures GroupOf(h) == Status
  {
  }

  /** The conditional branches. */
  lemma BranchGroup(h: Handler)
    requires h in {BCC, BNE, BPL, BVC, BCS, BEQ, BMI, BVS}
    ensures GroupOf(h) == Jump
  {
  }

  /** Two steps at the same address. */
  lemma Steps(first: Handler, second: Handler, m: Machine, address: Num, mid: Machine, after: Machine)
    requires Apply(first, m, address) == Ran(mid) && Apply(second, mid, address) == Ran(after)
    ensures Apply(second, Apply(first, m, address).m, address) == Ran(after)
  {
  }

  /** A step that sets the status register changes nothing else. */
  lemma StatusChanged(h: Handler, m: Machine, address: Num, after: Num)
    requires Apply(h, m, address) == Ran(m.(statusRegister := after))
    ensures Apply(h, m, address).Ran?
    ensures var r := Apply(h, m, address).m;
      r == m.(statusRegister := r.statusRegister) && r.statusRegister == after
  {
  }

  // ---- the stack ----

  /** A push followed by a pop returns the pushed value modulo 256 and puts
      the stack pointer back, as long as the slot is inside memory. */
  lemma PushThenPop(m: Machine, v: Num)
    requires InRange(Add(m.stackPointer, Int(0x100)))
    ensures var (after, popped) := PopSpec(PushSpec(m, v));
      popped == Int(ToUint8(v)) && after.stackPointer == m.stackPointer
    ensures PushSpec(m, v).memory[m.stackPointer.i + 0x100] == ToUint8(v)
  {
  }

  /** Pushes every value of vs in order. */
  function PushAll(m: Machine, vs: seq<Num>): Machine
    decreases |vs|
  {
    if vs == [] then m else PushAll(PushSpec(m, vs[0]), vs[1..])
  }

  /** Pops n values; they come back in the order they were popped. */
  function PopMany(m: Machine, n: nat): (Machine, seq<Num>)
    decreases n
  {
    if n == 0 then (m, [])
    else
      var first := PopSpec(m);
      var rest := PopMany(first.0, n - 1);
      (rest.0, [first.1] + rest.1)
  }

  function Reverse<T>(s: seq<T>): seq<T> {
    if s == [] then [] else Reverse(s[1..]) + [s[0]]
  }

  /** The stack region 0x100 + sp - n + 1 .. 0x100 + sp lies inside memory. */
  predicate StackRoom(sp: Num, n: nat) {
    sp.Int? && n <= sp.i + 0x100 + 1 && sp.i + 0x100 < MEMORY_SIZE
  }

  function AsBytes(vs: seq<Num>): seq<Num> {
    if vs == [] then [] else [Int(ToUint8(vs[0]))] + AsBytes(vs[1..])
  }

  /** The stack is last in, first out: pushing n values and popping n gives
      them back reversed (each reduced to a byte) and restores the stack
      pointer. */
  lemma {:induction false} PushAllPopMany(m: Machine, vs: seq<Num>)
    requires StackRoom(m.stackPointer, |vs|)
    ensures PopMany(PushAll(m, vs), |vs|).1 == Reverse(AsBytes(vs))
    ensures PopMany(PushAll(m, vs), |vs|).0.stackPointer == m.stackPointer
    decreases |vs|
  {
    if vs != [] {
      var n := |vs| - 1;
      var pushed := PushSpec(m, vs[0]);
      PushAllPopMany(pushed, vs[1..]);
      var full := PushAll(pushed, vs[1..]);
      assert full == PushAll(m, vs);
      var mid := PopMany(full, n);
      var last := PopSpec(mid.0);
      PopManyKeepsMemory(full, n);
      PushAllKeepsSlot(pushed, vs[1..], m.stackPointer.i + 0x100);
      assert last.1 == Int(ToUint8(vs[0]));
      PopManySplit(full, n);
      assert AsBytes(vs)[1..] == AsBytes(vs[1..]);
    }
  }

  /** Pushes below a slot do not disturb it. */
  lemma {:induction false} PushAllKeepsSlot(m: Machine, vs: seq<Num>, slot: int)
    requires m.stackPointer.Int? && 0 <= slot < MEMORY_SIZE && m.stackPointer.i + 0x100 < slot
    ensures PushAll(m, vs).memory[slot] == m.memory[slot]
    decreases |vs|
  {
    if vs != [] {
      PushAllKeepsSlot(PushSpec(m, vs[0]), vs[1..], slot);
    }
  }

  /** Popping n + 1 values is popping n and then one more. */
  lemma {:induction false} PopManySplit(m: Machine, n: nat)
    ensures PopMany(m, n + 1).0 == PopSpec(PopMany(m, n).0).0
    ensures PopMany(m, n + 1).1 == PopMany(m, n).1 + [PopSpec(PopMany(m, n).0).1]
    decreases n
  {
    if n > 0 {
      var first := PopSpec(m);
      PopManySplit(first.0, n - 1);
      assert PopMany(m, n).1 == [first.1] + PopMany(first.0, n - 1).1;
      assert PopMany(m, n + 1).1 == [first.1] + PopMany(first.0, n).1;
    }
  }

  /** Pops only move the stack pointer. */
  lemma {:induction false} PopManyKeepsMemory(m: Machine, n: nat)
    ensures PopMany(m, n).0.memory == m.memory
    ensures PopMany(m, n).0.stackPointer == Add(m.stackPointer, Int(n))
    decreases n
  {
    if n > 0 {
      PopManyKeepsMemory(PopSpec(m).0, n - 1);
    }
  }

  // ---- flags ----

  /** Bit j of `sr & c` for a byte c: kept where c has it, else clear. */
  lemma AndByteFlagAt(sr: Num, c: Byte, j: nat)
    requires j < 32
    ensures Flag(BitAnd(sr, Int(c)), j) == if Bit(c, j) == 1 then Flag(sr, j) else 0
  {
    SmallUint32(c);
    AndBit(sr, Int(c), j);
  }

  /** Bit j of `sr | b` for a byte b: set where b has it, else kept. */
  lemma OrByteFlagAt(sr: Num, b: Byte, j: nat)
    requires j < 32
    ensures Flag(BitOr(sr, Int(b)), j) == if Bit(b, j) == 1 then 1 else Flag(sr, j)
  {
    SmallUint32(b);
    OrBit(sr, Int(b), j);
  }

  /** Bit j after clearing bit k with its CLEAR mask. */
  lemma ClearBitAt(sr: Num, k: nat, j: nat)
    requires k < 8 && j < 8
    ensures Pow2(k) < 256
    ensures Flag(BitAnd(sr, Int(255 - Pow2(k))), j) == if j == k then 0 else Flag(sr, j)
  {
    ByteMaskBits(k, j);
    AndByteFlagAt(sr, 255 - Pow2(k), j);
  }

  /** Bit j after setting bit k with its SET mask. */
  lemma SetBitAt(sr: Num, k: nat, j: nat)
    requires k < 8 && j < 8
    ensures Pow2(k) < 256
    ensures Flag(BitOr(sr, Int(Pow2(k))), j) == if j == k then 1 else Flag(sr, j)
  {
    ByteMaskBits(k, j);
    OrByteFlagAt(sr, Pow2(k), j);
  }

  /** The flag each clear or set instruction acts on. */
  function FlagOf(h: Handler): nat
    requires h in {CLC, CLD, CLI, CLV, SEC, SED, SEI}
  {
    match h
    case CLC | SEC => CARRY
    case CLD | SED => DECIMAL
    case CLI | SEI => INTERRUPT_DISABLE
    case CLV => OVERFLOW
  }

  /** `after` is `before` with bit k of the status byte replaced by v. */
  ghost predicate FlagReplaced(before: Num, after: Num, k: nat, v: nat) {
    StatusByte(after) &&
    forall j :: 0 <= j < 8 ==> Flag(after, j) == if j == k then v else Flag(before, j)
  }

  /** A CLEAR mask clears its bit and leaves a byte, even from `undefined`. */
  lemma ClearBit(sr: Num, k: nat)
    requires k < 8
    ensures Pow2(k) < 256
    ensures FlagReplaced(sr, BitAnd(sr, Int(255 - Pow2(k))), k, 0)
  {
    ByteMaskBits(k, 0);
    AndRange(sr, 255 - Pow2(k));
    forall j | 0 <= j < 8
      ensures Flag(BitAnd(sr, Int(255 - Pow2(k))), j) == if j == k then 0 else Flag(sr, j)
    {
      ClearBitAt(sr, k, j);
    }
  }

  /** A SET mask sets its bit; a status byte stays a byte. */
  lemma SetBit(sr: Num, k: nat)
    requires k < 8 && StatusByte(sr)
    ensures Pow2(k) < 256
    ensures FlagReplaced(sr, BitOr(sr, Int(Pow2(k))), k, 1)
  {
    ByteMaskBits(k, 0);
    OrRange(sr, Pow2(k));
    forall j | 0 <= j < 8
      ensures Flag(BitOr(sr, Int(Pow2(k))), j) == if j == k then 1 else Flag(sr, j)
    {
      SetBitAt(sr, k, j);
    }
  }

  /** CLC, CLD, CLI and CLV clear exactly their flag, leave a byte in the
      status register (even when it was `undefined`) and change nothing
      else. */
  lemma ClearFlag(h: Handler, m: Machine, address: Num)
    requires h in {CLC, CLD, CLI, CLV}
    ensures Apply(h, m, address).Ran?
    ensures var r := Apply(h, m, address).m;
      r == m.(statusRegister := r.statusRegister) &&
      FlagReplaced(m.statusRegister, r.statusRegister, FlagOf(h), 0)
  {
    ClearMaskClears(h, m.statusRegister);
    ClearMaskOf(h, m, address);
    StatusChanged(h, m, address, BitAnd(m.statusRegister, Int(ClearMask(h))));
  }

  /** SEC, SED and SEI set exactly their flag and change nothing else; a
      status byte stays a byte. */
  lemma SetFlag(h: Handler, m: Machine, address: Num)
    requires h in {SEC, SED, SEI} && StatusByte(m.statusRegister)
    ensures Apply(h, m, address).Ran?
    ensures var r := Apply(h, m, address).m;
      r == m.(statusRegister := r.statusRegister) &&
      FlagReplaced(m.statusRegister, r.statusRegister, FlagOf(h), 1)
  {
    SetMaskSets(h, m.statusRegister);
    SetMaskOf(h, m, address);
    StatusChanged(h, m, address, BitOr(m.statusRegister, Int(SetMask(h))));
  }

  /** The CLEAR constant each clear instruction ands with. */
  function ClearMask(h: Handler): int
    requires h in {CLC, CLD, CLI, CLV}
  {
    match h
    case CLC => CLEAR_CARRY
    case CLD => CLEAR_DECIMAL
    case CLI => CLEAR_INTERRUPT_DISABLE
    case CLV => CLEAR_OVERFLOW
  }

  /** The SET constant each set instruction ors with. */
  function SetMask(h: Handler): int
    requires h in {SEC, SED, SEI}
  {
    match h
    case SEC => SET_CARRY
    case SED => SET_DECIMAL
    case SEI => SET_INTERRUPT_DISABLE
  }

  /** Each CLEAR constant clears its instruction's flag. */
  lemma ClearMaskClears(h: Handler, sr: Num)
    requires h in {CLC, CLD, CLI, CLV}
    ensures FlagReplaced(sr, BitAnd(sr, Int(ClearMask(h))), FlagOf(h), 0)
  {
    var k := FlagOf(h);
    MaskLayout();
    assert k < 8 && ClearMask(h) == 255 - Pow2(k);
    ClearBit(sr, k);
  }

  /** Each SET constant sets its instruction's flag. */
  lemma SetMaskSets(h: Handler, sr: Num)
    requires h in {SEC, SED, SEI} && StatusByte(sr)
    ensures FlagReplaced(sr, BitOr(sr, Int(SetMask(h))), FlagOf(h), 1)
  {
    var k := FlagOf(h);
    MaskLayout();
    assert k < 8 && SetMask(h) == Pow2(k);
    SetBit(sr, k);
  }

  lemma ClearMaskOf(h: Handler, m: Machine, address: Num)
    requires h in {CLC, CLD, CLI, CLV}
    ensures Apply(h, m, address)
         == Ran(m.(statusRegister := BitAnd(m.statusRegister, Int(ClearMask(h)))))
  {
    var value := Read(m.memory, address);
    FlagGroup(h);
    StatusStep(h, m, address, StatusValue(h, m, value));
    ClearValue(h, m, value);
  }

  lemma ClearValue(h: Handler, m: Machine, value: Num)
    requires h in {CLC, CLD, CLI, CLV}
    ensures StatusValue(h, m, value) == BitAnd(m.statusRegister, Int(ClearMask(h)))
  {
  }

  lemma SetMaskOf(h: Handler, m: Machine, address: Num)
    requires h in {SEC, SED, SEI}
    ensures Apply(h, m, address)
         == Ran(m.(statusRegister := BitOr(m.statusRegister, Int(SetMask(h)))))
  {
    var value := Read(m.memory, address);
    FlagGroup(h);
    StatusStep(h, m, address, StatusValue(h, m, value));
    SetValue(h, m, value);
  }

  lemma SetValue(h: Handler, m: Machine, value: Num)
    requires h in {SEC, SED, SEI}
    ensures StatusValue(h, m, value) == BitOr(m.statusRegister, Int(SetMask(h)))
  {
  }

  lemma CombinedMaskBits(j: nat)
    requires j < 8
    ensures Bit(0x7C, j) == if j == CARRY || j == ZERO || j == NEGATIVE then 0 else 1
    ensures Bit(0x3D, j) == if j == ZERO || j == OVERFLOW || j == NEGATIVE then 0 else 1
  {
    Pow2Values();
    if j == 0 {
    } else if j == 1 {
    } else if j == 2 {
    } else if j == 3 {
    } else if j == 4 {
    } else if j == 5 {
    } else if j == 6 {
    } else {
    }
  }

  // ---- compare ----

  /** What `compare` promises: C when the difference is non-negative, Z when
      it is zero, N when it is negative (or not a number), the other flags
      kept, and a byte in the status register. */
  ghost predicate Compared(before: Num, after: Num, difference: Num) {
    StatusByte(after) &&
    Flag(after, CARRY) == (if NonNegative(difference) then 1 else 0) &&
    Flag(after, ZERO) == (if difference == Int(0) then 1 else 0) &&
    Flag(after, NEGATIVE) == (if NonNegative(difference) then 0 else 1) &&
    forall j :: INTERRUPT_DISABLE <= j < NEGATIVE ==> Flag(after, j) == Flag(before, j)
  }

  /** `statusRegister & (CLEAR_NEGATIVE & CLEAR_ZERO & CLEAR_CARRY)` clears N,
      Z and C and keeps bits 2 to 6. */
  ghost predicate NzcCleared(before: Num, after: Num) {
    after.Int? && 0 <= after.i <= 0x7C &&
    Flag(after, CARRY) == 0 && Flag(after, ZERO) == 0 && Flag(after, NEGATIVE) == 0 &&
    forall j :: INTERRUPT_DISABLE <= j < NEGATIVE ==> Flag(after, j) == Flag(before, j)
  }

  lemma ClearNzcFlags(sr: Num)
    ensures NzcCleared(sr, ClearNzc(sr))
  {
    AndRange(sr, 0x7C);
    forall j | 0 <= j < 8
      ensures Flag(BitAnd(sr, Int(0x7C)), j) == if j == CARRY || j == ZERO || j == NEGATIVE then 0 else Flag(sr, j)
    {
      CombinedMaskBits(j);
      AndByteFlagAt(sr, 0x7C, j);
    }
  }

  /** `compare` always leaves a byte with N, Z and C as the difference
      says, whatever the register held before. */
  lemma CompareStatus(sr: Num, difference: Num)
    ensures Compared(sr, CompareSpec(sr, difference), difference)
  {
    if !NonNegative(difference) {
      CompareBelow(sr, difference);
    } else if difference == Int(0) {
      CompareEqual(sr, difference);
    } else {
      CompareAbove(sr, difference);
    }
  }

  lemma CompareBelow(sr: Num, difference: Num)
    requires !NonNegative(difference)
    ensures Compared(sr, CompareSpec(sr, difference), difference)
  {
    var cleared := ClearNzc(sr);
    ClearNzcFlags(sr);
    assert Pow2(NEGATIVE) == SET_NEGATIVE by { Pow2Values(); }
    SetBit(cleared, NEGATIVE);
  }

  lemma CompareAbove(sr: Num, difference: Num)
    requires NonNegative(difference) && difference != Int(0)
    ensures Compared(sr, CompareSpec(sr, difference), difference)
  {
    var cleared := ClearNzc(sr);
    ClearNzcFlags(sr);
    assert Pow2(CARRY) == SET_CARRY;
    SetBit(cleared, CARRY);
  }

  lemma CompareEqual(sr: Num, difference: Num)
    requires difference == Int(0)
    ensures Compared(sr, CompareSpec(sr, difference), difference)
  {
    var cleared := ClearNzc(sr);
    ClearNzcFlags(sr);
    assert Pow2(CARRY) == SET_CARRY && Pow2(ZERO) == SET_ZERO;
    SetBit(cleared, CARRY);
    SetBit(BitOr(cleared, Int(SET_CARRY)), ZERO);
  }

  /** The register CMP, CPX and CPY compare with memory. */
  function ComparedRegister(h: Handler, m: Machine): Num
    requires h in {CMP, CPX, CPY}
  {
    match h
    case CMP => m.A
    case CPX => m.X
    case CPY => m.Y
  }

  /** CMP, CPX and CPY set the flags from register minus memory and change
      nothing else. */
  lemma CompareHandlers(h: Handler, m: Machine, address: Num)
    requires h in {CMP, CPX, CPY}
    ensures Apply(h, m, address).Ran?
    ensures var r := Apply(h, m, address).m;
      r == m.(statusRegister := r.statusRegister) &&
      Compared(m.statusRegister, r.statusRegister, Sub(ComparedRegister(h, m), Read(m.memory, address)))
  {
    var difference := Sub(ComparedRegister(h, m), Read(m.memory, address));
    CompareApplies(h, m, address);
    CompareStatus(m.statusRegister, difference);
  }

  lemma CompareApplies(h: Handler, m: Machine, address: Num)
    requires h in {CMP, CPX, CPY}
    ensures Apply(h, m, address) == Ran(m.(statusRegister :=
      CompareSpec(m.statusRegister, Sub(ComparedRegister(h, m), Read(m.memory, address)))))
  {
    var value := Read(m.memory, address);
    FlagGroup(h);
    StatusStep(h, m, address, StatusValue(h, m, value));
    CompareValue(h, m, value);
  }

  lemma CompareValue(h: Handler, m: Machine, value: Num)
    requires h in {CMP, CPX, CPY}
    ensures StatusValue(h, m, value) == CompareSpec(m.statusRegister, Sub(ComparedRegister(h, m), value))
  {
  }

  /** With a byte in the register and the address inside memory the flags
      read as an unsigned comparison: Z when equal, C when the register is
      at least the cell, N when it is below. */
  lemma CompareBytes(h: Handler, m: Machine, address: Num)
    requires h in {CMP, CPX, CPY} && InRange(address)
    requires ComparedRegister(h, m).Int? && 0 <= ComparedRegister(h, m).i < 256
    ensures var register := ComparedRegister(h, m);
      var sr := Apply(h, m, address).m.statusRegister;
      var cell := m.memory[address.i];
      (Flag(sr, ZERO) == 1 <==> register.i == cell) &&
      (Flag(sr, CARRY) == 1 <==> register.i >= cell) &&
      (Flag(sr, NEGATIVE) == 1 <==> register.i < cell)
  {
    CompareHandlers(h, m, address);
  }

  // ---- BIT and the branches ----

  lemma AndZeroNum(x: Num)
    ensures BitAnd(x, Int(0)) == Int(0)
  {
    Pow2Values();
    AndZero(ToUint32(x), 32);
  }

  lemma AndOneNum(x: Num)
    ensures BitAnd(x, Int(1)) == Int(Flag(x, CARRY))
  {
    Uint32View(x);
    MaskOne(ToUint32(x));
    assert BitAnd(x, Int(1)) == Int(ToUint32(x) % 2);
  }

  /** BCC, BNE, BPL and BVC: `statusRegister & (MASK === 0)` is always
      `statusRegister & 0`, so these branches are never taken. */
  lemma BranchesNeverTaken(h: Handler, m: Machine, address: Num)
    requires h in {BCC, BNE, BPL, BVC}
    ensures Apply(h, m, address) == Ran(m)
  {
    var sr, pc := m.statusRegister, m.programCounter;
    ZeroTest(h, sr, pc, address);
    BranchGroup(h);
    JumpStep(h, m, address, pc);
  }

  /** BCC, BNE, BPL and BVC test `MASK === 0`, which is false. */
  lemma ZeroTest(h: Handler, sr: Num, pc: Num, address: Num)
    requires h in {BCC, BNE, BPL, BVC}
    ensures GroupOf(h) == Jump && JumpTarget(h, sr, pc, address) == pc
  {
    NeverTaken(sr);
  }

  lemma NeverTaken(sr: Num)
    ensures !Taken(sr, false)
  {
    AndZeroNum(sr);
  }

  /** BCS, BEQ, BMI and BVS test `MASK !== 0`, which is true. */
  lemma NonzeroTest(h: Handler, sr: Num, pc: Num, address: Num)
    requires h in {BCS, BEQ, BMI, BVS}
    ensures GroupOf(h) == Jump
    ensures JumpTarget(h, sr, pc, address) == if Flag(sr, CARRY) == 1 then address else pc
  {
    TakenOnCarry(sr);
  }

  lemma TakenOnCarry(sr: Num)
    ensures Taken(sr, true) <==> Flag(sr, CARRY) == 1
  {
    AndOneNum(sr);
  }

  /** BCS, BEQ, BMI and BVS: `statusRegister & (MASK !== 0)` is
      `statusRegister & 1`, so all four are taken exactly when the carry bit
      is set, whichever flag they name. */
  lemma BranchesOnCarry(h: Handler, m: Machine, address: Num)
    requires h in {BCS, BEQ, BMI, BVS}
    ensures Apply(h, m, address)
         == Ran(if Flag(m.statusRegister, CARRY) == 1 then m.(programCounter := address) else m)
  {
    var sr, pc := m.statusRegister, m.programCounter;
    var target := if Flag(sr, CARRY) == 1 then address else pc;
    NonzeroTest(h, sr, pc, address);
    BranchGroup(h);
    JumpStep(h, m, address, target);
  }

  /** `statusRegister & (CLEAR_NEGATIVE & CLEAR_OVERFLOW & CLEAR_ZERO)`
      clears N, V and Z and keeps the other bits of the byte. */
  ghost predicate NvzCleared(before: Num, after: Num) {
    after.Int? && 0 <= after.i <= 0x3D &&
    Flag(after, ZERO) == 0 && Flag(after, OVERFLOW) == 0 && Flag(after, NEGATIVE) == 0 &&
    forall j :: 0 <= j < OVERFLOW && j != ZERO ==> Flag(after, j) == Flag(before, j)
  }

  lemma ClearNvzFlags(sr: Num)
    ensures NvzCleared(sr, ClearNvz(sr))
  {
    AndRange(sr, 0x3D);
    forall j | 0 <= j < 8
      ensures Flag(BitAnd(sr, Int(0x3D)), j) == if j == ZERO || j == OVERFLOW || j == NEGATIVE then 0 else Flag(sr, j)
    {
      CombinedMaskBits(j);
      AndByteFlagAt(sr, 0x3D, j);
    }
  }

  /** What BIT does as written: N and V cleared, Z set exactly when the
      memory value is 0 and A is odd, the other flags kept. */
  ghost predicate BitTested(before: Num, after: Num, a: Num, value: Num) {
    StatusByte(after) &&
    Flag(after, ZERO) == (if value == Int(0) && Flag(a, CARRY) == 1 then 1 else 0) &&
    Flag(after, NEGATIVE) == 0 && Flag(after, OVERFLOW) == 0 &&
    forall j :: 0 <= j < OVERFLOW && j != ZERO ==> Flag(after, j) == Flag(before, j)
  }

  lemma BitStatus(sr: Num, a: Num, value: Num)
    ensures BitTested(sr, BitSpec(sr, a, value), a, value)
  {
    MaskLayout();
    var cleared := ClearNvz(sr);
    ClearNvzFlags(sr);
    if value == Int(0) {
      AndOneNum(a);
    } else {
      AndZeroNum(a);
    }
    SetBit(cleared, ZERO);
  }

  /** BIT changes only the status register, as `BitTested` says. */
  lemma BitHandler(m: Machine, address: Num)
    ensures Apply(BIT, m, address).Ran?
    ensures var r := Apply(BIT, m, address).m;
      r == m.(statusRegister := r.statusRegister) &&
      BitTested(m.statusRegister, r.statusRegister, m.A, Read(m.memory, address))
  {
    var after := BitSpec(m.statusRegister, m.A, Read(m.memory, address));
    BitStatus(m.statusRegister, m.A, Read(m.memory, address));
    StatusStep(BIT, m, address, after);
    StatusChanged(BIT, m, address, after);
  }

  // ---- shifts and rotates ----

  /** `v >> 1 | (v & 0b1) << 7` on a byte moves bit 0 to bit 7. */
  lemma RotateRightByte(v: Byte)
    ensures RotateRight(Int(v)) == Int(v / 2 + (v % 2) * 128)
  {
    HalfShift(v);
    LowToTop(v);
    JoinTopBit(v);
  }

  lemma HalfShift(v: Byte)
    ensures ShiftRight(Int(v), 1) == Int(v / 2)
  {
    Pow2Values();
    ShiftRightSmall(v, 1);
  }

  lemma LowToTop(v: Byte)
    ensures ShiftLeft(BitAnd(Int(v), Int(1)), 7) == Int((v % 2) * 128)
  {
    MaskOne(v);
    Pow2Values();
    ShiftLeftSmall(v % 2, 7);
  }

  lemma JoinTopBit(v: Byte)
    ensures BitOr(Int(v / 2), Int((v % 2) * 128)) == Int(v / 2 + (v % 2) * 128)
  {
    Pow2Values();
    OrFields(v / 2, (v % 2) * 128, 7);
  }

  /** `v << 1 | (v & 0b10000000) >> 7` on a byte moves bit 7 to bit 0 and
      shifts the rest up, without dropping bit 8. */
  lemma RotateLeftByte(v: Byte)
    ensures RotateLeft(Int(v)) == Int(2 * v + v / 128)
  {
    RotateLeftParts(v);
    JoinLowBit(v);
  }

  lemma RotateLeftParts(v: Byte)
    ensures RotateLeft(Int(v)) == BitOr(Int(2 * v), Int(v / 128))
  {
    Pow2Values();
    ShiftLeftSmall(v, 1);
    TopBit(v);
  }

  lemma JoinLowBit(v: Byte)
    ensures BitOr(Int(2 * v), Int(v / 128)) == Int(2 * v + v / 128)
  {
    assert Pow2(1) == 2;
    OrFields(v / 128, 2 * v, 1);
  }

  /** `(v & 0b10000000) >> 7` is bit 7 of a byte. */
  lemma TopBit(v: Byte)
    ensures ShiftRight(BitAnd(Int(v), Int(0x80)), 7) == Int(v / 128)
  {
    Pow2Values();
    MaskBit(v, 7);
    if v < 128 {
      assert v / 128 % 2 == 0;
      ShiftRightSmall(0, 7);
    } else {
      assert v / 128 % 2 == 1;
      ShiftRightSmall(128, 7);
    }
  }

  /** A byte rotated right by one: bit 0 moves to bit 7. */
  function RorByte(v: Byte): Byte {
    v / 2 + (v % 2) * 128
  }

  /** A byte rotated left by one, as the Uint8Array stores it: bit 7 moves
      to bit 0 and bit 8 is dropped. */
  function RolByte(v: Byte): Byte {
    (2 * v + v / 128) % 256
  }

  /** ROR on a memory cell rotates its byte right by one. */
  lemma RotateRightCell(m: Machine, address: Num)
    requires InRange(address)
    ensures Apply(ROR, m, address) == Ran(m.(memory := m.memory[address.i := RorByte(m.memory[address.i])]))
  {
    RotateCell(ROR, m, address);
  }

  /** ROL on a memory cell rotates its byte left by one (the store drops
      bit 8). */
  lemma RotateLeftCell(m: Machine, address: Num)
    requires InRange(address)
    ensures Apply(ROL, m, address) == Ran(m.(memory := m.memory[address.i := RolByte(m.memory[address.i])]))
  {
    RotateCell(ROL, m, address);
  }

  lemma RotateCell(h: Handler, m: Machine, address: Num)
    requires h in {ROR, ROL} && InRange(address)
    ensures var v := m.memory[address.i];
      Apply(h, m, address) == Ran(m.(memory := m.memory[address.i := if h == ROR then RorByte(v) else RolByte(v)]))
  {
    var v := m.memory[address.i];
    RotatedStored(h, m, address);
    RotateGroup(h);
    CellStep(h, m, address, if h == ROR then RorByte(v) else RolByte(v));
  }

  lemma RotateGroup(h: Handler)
    requires h in {ROR, ROL}
    ensures GroupOf(h) == MemoryCell
  {
  }

  /** The value ROR or ROL stores, once the store has made a byte of it. */
  lemma RotatedStored(h: Handler, m: Machine, address: Num)
    requires h in {ROR, ROL} && InRange(address)
    ensures var v := m.memory[address.i];
      ToUint8(StoredValue(h, m, Read(m.memory, address))) == if h == ROR then RorByte(v) else RolByte(v)
  {
    var v := m.memory[address.i];
    assert Read(m.memory, address) == Int(v);
    if h == ROR {
      RotateRightByte(v);
    } else {
      RotateLeftByte(v);
    }
  }

  /** On a memory cell, ROL undoes ROR and ROR undoes ROL. */
  lemma RotateMemoryRoundTrip(m: Machine, address: Num)
    requires InRange(address)
    ensures Apply(ROL, Apply(ROR, m, address).m, address) == Ran(m)
    ensures Apply(ROR, Apply(ROL, m, address).m, address) == Ran(m)
  {
    RorThenRol(m, address);
    RolThenRor(m, address);
  }

  lemma RorThenRol(m: Machine, address: Num)
    requires InRange(address)
    ensures Apply(ROL, Apply(ROR, m, address).m, address) == Ran(m)
  {
    var v := m.memory[address.i];
    var right := m.(memory := m.memory[address.i := RorByte(v)]);
    RotateRightCell(m, address);
    RotateLeftCell(right, address);
    RorRolArith(v);
    assert right.memory[address.i := RolByte(RorByte(v))] == m.memory;
    Steps(ROR, ROL, m, address, right, m);
  }

  lemma RolThenRor(m: Machine, address: Num)
    requires InRange(address)
    ensures Apply(ROR, Apply(ROL, m, address).m, address) == Ran(m)
  {
    var v := m.memory[address.i];
    var left := m.(memory := m.memory[address.i := RolByte(v)]);
    RotateLeftCell(m, address);
    RotateRightCell(left, address);
    RolRorArith(v);
    assert left.memory[address.i := RorByte(RolByte(v))] == m.memory;
    Steps(ROL, ROR, m, address, left, m);
  }

  lemma RorRolArith(v: Byte)
    ensures RolByte(RorByte(v)) == v
  {
    var q, b := v / 2, v % 2;
    assert v == 2 * q + b && 0 <= q < 128;
    var r := q + b * 128;
    assert r / 128 == b;
    assert 2 * r + r / 128 == v + 256 * b;
  }

  lemma RolRorArith(v: Byte)
    ensures RorByte(RolByte(v)) == v
  {
    var t, u := v / 128, v % 128;
    assert v == 128 * t + u && 0 <= t < 2;
    var l := 2 * u + t;
    assert 2 * v + t == 256 * t + l;
    assert (2 * v + v / 128) % 256 == l;
    assert l / 2 == u && l % 2 == t;
  }

  /** The byte ROR or ROL leaves in a memory cell. */
  function Rotated(h: Handler, v: Byte): Byte
    requires h in {ROR, ROL}
  {
    if h == ROR then RorByte(v) else RolByte(v)
  }

  /** A byte rotated n times by ROR or ROL. */
  function RotatedTimes(h: Handler, v: Byte, n: nat): Byte
    requires h in {ROR, ROL}
  {
    if n == 0 then v else Rotated(h, RotatedTimes(h, v, n - 1))
  }

  /** After k right rotations the low k bits of v sit above its high 8 - k
      bits. */
  lemma {:induction false} RorTimesSplit(v: Byte, k: nat)
    requires k <= 8
    ensures RotatedTimes(ROR, v, k) == v / Pow2(k) + (v % Pow2(k)) * Pow2(8 - k)
  {
    if k > 0 {
      RorTimesSplit(v, k - 1);
      var p, q := Pow2(k - 1), Pow2(8 - k);
      assert Pow2(k) == 2 * p && Pow2(9 - k) == 2 * q;
      Pow2Add(k - 1, 8 - k);
      Pow2Values();
      RorSplitStep(v, p, q, RotatedTimes(ROR, v, k - 1));
    }
  }

  /** One more rotation moves one more low bit to the top. */
  lemma RorSplitStep(v: Byte, p: nat, q: nat, x: Byte)
    requires p >= 1 && p * q == 128
    requires x == v / p + (v % p) * (2 * q)
    ensures RorByte(x) == v / (2 * p) + (v % (2 * p)) * q
  {
    var hi, lo := v / p, v % p;
    var t := lo * q;
    DoubleFactor(lo, q, t);
    HalveSplit(x, hi, t);
    HigherSplit(v, p, hi, lo);
    if hi % 2 == 1 {
      AddFactor(p, lo, q, t);
    }
  }

  lemma DoubleFactor(lo: nat, q: nat, t: nat)
    requires t == lo * q
    ensures lo * (2 * q) == 2 * t
  {
  }

  lemma HalveSplit(x: nat, hi: nat, t: nat)
    requires x == hi + 2 * t
    ensures x / 2 == hi / 2 + t && x % 2 == hi % 2
  {
  }

  lemma AddFactor(p: nat, lo: nat, q: nat, t: nat)
    requires t == lo * q && p * q == 128
    ensures (p + lo) * q == 128 + t
  {
  }

  /** Dividing by 2p takes the quotient by p and halves it. */
  lemma HigherSplit(v: nat, p: nat, hi: nat, lo: nat)
    requires p >= 1 && hi == v / p && lo == v % p
    ensures v / (2 * p) == hi / 2
    ensures v % (2 * p) == if hi % 2 == 1 then p + lo else lo
  {
    var h := hi / 2;
    QuotientRemainder(v, p);
    if hi % 2 == 1 {
      HalvedFactor(p, hi, h, 1);
      DivModUnique(v, 2 * p, h, p + lo);
    } else {
      HalvedFactor(p, hi, h, 0);
      DivModUnique(v, 2 * p, h, lo);
    }
  }

  lemma QuotientRemainder(v: nat, p: nat)
    requires p >= 1
    ensures v == p * (v / p) + v % p && v % p < p
  {
  }

  lemma HalvedFactor(p: nat, hi: nat, h: nat, b: nat)
    requires hi == 2 * h + b
    ensures p * hi == (2 * p) * h + p * b
  {
  }

  /** The first of n rotations can be taken first. */
  lemma {:induction false} RotatedFirst(h: Handler, v: Byte, n: nat)
    requires h in {ROR, ROL} && n > 0
    ensures RotatedTimes(h, v, n) == RotatedTimes(h, Rotated(h, v), n - 1)
  {
    if n > 1 {
      RotatedFirst(h, v, n - 1);
    }
  }

  /** n left rotations undo n right rotations. */
  lemma {:induction false} RolUndoesRor(v: Byte, n: nat)
    ensures RotatedTimes(ROL, RotatedTimes(ROR, v, n), n) == v
  {
    if n > 0 {
      var y := RotatedTimes(ROR, v, n - 1);
      RotatedFirst(ROL, RorByte(y), n);
      RorRolArith(y);
      RolUndoesRor(v, n - 1);
    }
  }

  /** Eight right rotations give the byte back. */
  lemma RotateRightEightTimes(v: Byte)
    ensures RotatedTimes(ROR, v, 8) == v
  {
    RotateRightFull(v, 8);
  }

  lemma RotateRightFull(v: Byte, k: nat)
    requires k == 8
    ensures RotatedTimes(ROR, v, k) == v
  {
    RorTimesSplit(v, k);
    Pow2Values();
    WholeSplit(v, Pow2(k), Pow2(8 - k));
  }

  lemma WholeSplit(v: Byte, a: nat, b: nat)
    requires a == 256 && b == 1
    ensures v / a + (v % a) * b == v
  {
  }

  /** Eight left rotations give the byte back. */
  lemma RotateLeftEightTimes(v: Byte)
    ensures RotatedTimes(ROL, v, 8) == v
  {
    RotateRightEightTimes(v);
    RolUndoesRor(v, 8);
  }

  /** A handler run n times at one address, stopping at a throw. */
  function Repeat(h: Handler, m: Machine, address: Num, n: nat): Outcome {
    if n == 0 then Ran(m)
    else match Repeat(h, m, address, n - 1)
      case Ran(after) => Apply(h, after, address)
      case Threw(after) => Threw(after)
  }

  /** n RORs or ROLs on a cell rotate its byte n times and touch nothing
      else. */
  lemma {:induction false} RotateCellSteps(h: Handler, m: Machine, address: Num, n: nat)
    requires h in {ROR, ROL} && InRange(address)
    ensures Repeat(h, m, address, n)
         == Ran(m.(memory := m.memory[address.i := RotatedTimes(h, m.memory[address.i], n)]))
    decreases n, 1
  {
    if n > 0 {
      RotateCellNext(h, m, address, n);
    } else {
      RotateCellZero(h, m, address);
    }
  }

  /** The base case of RotateCellSteps. */
  lemma RotateCellZero(h: Handler, m: Machine, address: Num)
    requires h in {ROR, ROL} && InRange(address)
    ensures Repeat(h, m, address, 0)
         == Ran(m.(memory := m.memory[address.i := RotatedTimes(h, m.memory[address.i], 0)]))
  {
    assert m.memory[address.i := m.memory[address.i]] == m.memory;
  }

  /** The step case of RotateCellSteps. */
  lemma {:induction false} RotateCellNext(h: Handler, m: Machine, address: Num, n: nat)
    requires h in {ROR, ROL} && n > 0 && InRange(address)
    ensures Repeat(h, m, address, n)
         == Ran(m.(memory := m.memory[address.i := RotatedTimes(h, m.memory[address.i], n)]))
    decreases n, 0
  {
    RotateCellSteps(h, m, address, n - 1);
    var i, v := address.i, m.memory[address.i];
    var before := m.(memory := m.memory[i := RotatedTimes(h, v, n - 1)]);
    RotateCell(h, before, address);
    UpdateTwice(m.memory, i, RotatedTimes(h, v, n - 1), RotatedTimes(h, v, n));
  }

  lemma UpdateTwice(mem: Memory, i: nat, x: Byte, y: Byte)
    requires i < MEMORY_SIZE
    ensures mem[i := x][i := y] == mem[i := y]
  {
  }

  /** Eight RORs, or eight ROLs, on a memory cell restore the machine. */
  lemma RotateCellEightTimes(h: Handler, m: Machine, address: Num)
    requires h in {ROR, ROL} && InRange(address)
    ensures Repeat(h, m, address, 8) == Ran(m)
  {
    RotateCellSteps(h, m, address, 8);
    if h == ROR {
      RotateRightEightTimes(m.memory[address.i]);
    } else {
      RotateLeftEightTimes(m.memory[address.i]);
    }
    assert m.memory[address.i := m.memory[address.i]] == m.memory;
  }

  /** ROR_A keeps a byte in A, but ROL_A does not drop bit 8, so on an odd
      A the pair ROR_A, ROL_A adds 256. */
  lemma RotateAccumulator(m: Machine, address: Num)
    requires m.A.Int? && 0 <= m.A.i < 256
    ensures Apply(ROR_A, m, address) == Ran(m.(A := Int(m.A.i / 2 + (m.A.i % 2) * 128)))
    ensures Apply(ROL_A, m, address) == Ran(m.(A := Int(2 * m.A.i + m.A.i / 128)))
    ensures Apply(ROL_A, Apply(ROR_A, m, address).m, address)
         == Ran(m.(A := Int(m.A.i + 256 * (m.A.i % 2))))
  {
    var v := m.A.i;
    RotateRightByte(v);
    RotateLeftByte(v);
    RotateLeftByte(v / 2 + (v % 2) * 128);
  }

  /** ASL with an address puts twice the memory value into A and leaves
      memory alone; LSR halves the cell; on a byte A, ASL_A doubles it
      without dropping bit 8 and LSR_A halves it. */
  lemma Shifts(m: Machine, address: Num)
    requires InRange(address)
    ensures Apply(ASL, m, address) == Ran(m.(A := Int(2 * (m.memory[address.i] as int))))
    ensures Apply(LSR, m, address)
         == Ran(m.(memory := m.memory[address.i := m.memory[address.i] / 2]))
    ensures m.A.Int? && 0 <= m.A.i < 256 ==>
      Apply(ASL_A, m, address) == Ran(m.(A := Int(2 * m.A.i))) &&
      Apply(LSR_A, m, address) == Ran(m.(A := Int(m.A.i / 2)))
  {
    ShiftCell(m, address);
    if m.A.Int? && 0 <= m.A.i < 256 {
      ShiftAccumulator(m, address);
    }
  }

  lemma ShiftCell(m: Machine, address: Num)
    requires InRange(address)
    ensures Apply(ASL, m, address) == Ran(m.(A := Int(2 * (m.memory[address.i] as int))))
    ensures Apply(LSR, m, address)
         == Ran(m.(memory := m.memory[address.i := m.memory[address.i] / 2]))
  {
    ShiftLeftCell(m, address);
    ShiftRightCell(m, address);
  }

  lemma ShiftLeftCell(m: Machine, address: Num)
    requires InRange(address)
    ensures Apply(ASL, m, address) == Ran(m.(A := Int(2 * (m.memory[address.i] as int))))
  {
    var v := m.memory[address.i];
    DoubleShift(v);
    assert Read(m.memory, address) == Int(v);
    AccumulatorStep(ASL, m, address, Int(2 * (v as int)));
  }

  lemma ShiftRightCell(m: Machine, address: Num)
    requires InRange(address)
    ensures Apply(LSR, m, address) == Ran(m.(memory := m.memory[address.i := m.memory[address.i] / 2]))
  {
    var v := m.memory[address.i];
    HalfShift(v);
    assert Read(m.memory, address) == Int(v);
    CellStep(LSR, m, address, v / 2);
  }

  /** `v << 1` on a byte doubles it. */
  lemma DoubleShift(v: Byte)
    ensures ShiftLeft(Int(v), 1) == Int(2 * v)
  {
    Pow2Values();
    ShiftLeftSmall(v, 1);
  }

  lemma ShiftAccumulator(m: Machine, address: Num)
    requires m.A.Int? && 0 <= m.A.i < 256
    ensures Apply(ASL_A, m, address) == Ran(m.(A := Int(2 * m.A.i)))
    ensures Apply(LSR_A, m, address) == Ran(m.(A := Int(m.A.i / 2)))
  {
    ShiftLeftAccumulator(m, address);
    ShiftRightAccumulator(m, address);
  }

  lemma ShiftLeftAccumulator(m: Machine, address: Num)
    requires m.A.Int? && 0 <= m.A.i < 256
    ensures Apply(ASL_A, m, address) == Ran(m.(A := Int(2 * m.A.i)))
  {
    DoubleShift(m.A.i);
    AccumulatorStep(ASL_A, m, address, Int(2 * m.A.i));
  }

  lemma ShiftRightAccumulator(m: Machine, address: Num)
    requires m.A.Int? && 0 <= m.A.i < 256
    ensures Apply(LSR_A, m, address) == Ran(m.(A := Int(m.A.i / 2)))
  {
    HalfShift(m.A.i);
    AccumulatorStep(LSR_A, m, address, Int(m.A.i / 2));
  }

  // ---- counters ----

  /** INC and DEC change only the addressed cell, by one modulo 256 (the
      Uint8Array wraps the stored value); outside memory they change
      nothing. */
  lemma IncDecCell(m: Machine, address: Num)
    ensures InRange(address) ==>
      Apply(INC, m, address)
        == Ran(m.(memory := m.memory[address.i := (m.memory[address.i] as int + 1) % 256])) &&
      Apply(DEC, m, address)
        == Ran(m.(memory := m.memory[address.i := (m.memory[address.i] as int - 1) % 256]))
    ensures !InRange(address) ==> Apply(INC, m, address) == Ran(m) && Apply(DEC, m, address) == Ran(m)
  {
  }

  /** DEC undoes INC and INC undoes DEC on any cell. */
  lemma IncDecRoundTrip(m: Machine, address: Num)
    ensures Apply(DEC, Apply(INC, m, address).m, address) == Ran(m)
    ensures Apply(INC, Apply(DEC, m, address).m, address) == Ran(m)
  {
    if InRange(address) {
      var v: int := m.memory[address.i];
      assert ((v + 1) % 256 - 1) % 256 == v;
      assert ((v - 1) % 256 + 1) % 256 == v;
      assert m.memory[address.i := v] == m.memory;
    }
  }

  /** DEX and DEY wrap 0 to 255 explicitly, so a byte stays a byte. */
  lemma DecrementIndex(m: Machine, address: Num)
    ensures m.X.Int? && 0 <= m.X.i < 256 ==>
      Apply(DEX, m, address) == Ran(m.(X := Int((m.X.i - 1) % 256)))
    ensures m.Y.Int? && 0 <= m.Y.i < 256 ==>
      Apply(DEY, m, address) == Ran(m.(Y := Int((m.Y.i - 1) % 256)))
  {
  }

  /** INX and INY do not wrap: 255 becomes 256. DEX undoes INX (and DEY
      undoes INY) for every number but -1, whose increment 0 decrements to
      255. */
  lemma IncrementIndex(m: Machine, address: Num)
    ensures m.X == Int(255) ==> Apply(INX, m, address).m.X == Int(256)
    ensures m.Y == Int(255) ==> Apply(INY, m, address).m.Y == Int(256)
    ensures m.X.Int? && m.X.i != -1 ==> Apply(DEX, Apply(INX, m, address).m, address) == Ran(m)
    ensures m.Y.Int? && m.Y.i != -1 ==> Apply(DEY, Apply(INY, m, address).m, address) == Ran(m)
    ensures m.X == Int(-1) ==> Apply(DEX, Apply(INX, m, address).m, address) == Ran(m.(X := Int(255)))
  {
    IncrementX(m, address);
    IncrementY(m, address);
  }

  lemma IncrementX(m: Machine, address: Num)
    ensures m.X == Int(255) ==> Apply(INX, m, address).m.X == Int(256)
    ensures m.X.Int? && m.X.i != -1 ==> Apply(DEX, Apply(INX, m, address).m, address) == Ran(m)
    ensures m.X == Int(-1) ==> Apply(DEX, Apply(INX, m, address).m, address) == Ran(m.(X := Int(255)))
  {
    var up := m.(X := Add(m.X, Int(1)));
    var down := up.(X := if up.X == Int(0) then Int(255) else Sub(up.X, Int(1)));
    IndexStep(INX, m, address, up);
    IndexStep(DEX, up, address, down);
    Steps(INX, DEX, m, address, up, down);
  }

  lemma IncrementY(m: Machine, address: Num)
    ensures m.Y == Int(255) ==> Apply(INY, m, address).m.Y == Int(256)
    ensures m.Y.Int? && m.Y.i != -1 ==> Apply(DEY, Apply(INY, m, address).m, address) == Ran(m)
  {
    var up := m.(Y := Add(m.Y, Int(1)));
    var down := up.(Y := if up.Y == Int(0) then Int(255) else Sub(up.Y, Int(1)));
    IndexStep(INY, m, address, up);
    IndexStep(DEY, up, address, down);
    Steps(INY, DEY, m, address, up, down);
  }

  // ---- data movement ----

  /** A store writes the register modulo 256 to the addressed cell and
      nothing else; the matching load then reads that byte back. */
  lemma StoreThenLoad(m: Machine, address: Num)
    requires InRange(address)
    ensures Apply(STA, m, address) == Ran(m.(memory := m.memory[address.i := ToUint8(m.A)]))
    ensures Apply(LDA, Apply(STA, m, address).m, address).m.A == Int(ToUint8(m.A))
    ensures Apply(LDX, Apply(STX, m, address).m, address).m.X == Int(ToUint8(m.X))
    ensures Apply(LDY, Apply(STY, m, address).m, address).m.Y == Int(ToUint8(m.Y))
  {
    MemoryStep(STA, m, address, m.A);
    LoadAfterStoreA(m, address);
    LoadAfterStoreX(m, address);
    LoadAfterStoreY(m, address);
  }

  lemma LoadAfterStoreA(m: Machine, address: Num)
    requires InRange(address)
    ensures Apply(LDA, Apply(STA, m, address).m, address).m.A == Int(ToUint8(m.A))
  {
    var stored := m.(memory := Write(m.memory, address, m.A));
    MemoryStep(STA, m, address, m.A);
    ReadAfterWrite(m.memory, address, address, m.A);
    AccumulatorStep(LDA, stored, address, Int(ToUint8(m.A)));
  }

  lemma LoadAfterStoreX(m: Machine, address: Num)
    requires InRange(address)
    ensures Apply(LDX, Apply(STX, m, address).m, address).m.X == Int(ToUint8(m.X))
  {
    var stored := m.(memory := Write(m.memory, address, m.X));
    MemoryStep(STX, m, address, m.X);
    ReadAfterWrite(m.memory, address, address, m.X);
    IndexStep(LDX, stored, address, stored.(X := Int(ToUint8(m.X))));
  }

  lemma LoadAfterStoreY(m: Machine, address: Num)
    requires InRange(address)
    ensures Apply(LDY, Apply(STY, m, address).m, address).m.Y == Int(ToUint8(m.Y))
  {
    var stored := m.(memory := Write(m.memory, address, m.Y));
    MemoryStep(STY, m, address, m.Y);
    ReadAfterWrite(m.memory, address, address, m.Y);
    IndexStep(LDY, stored, address, stored.(Y := Int(ToUint8(m.Y))));
  }

  /** Outside memory every handler that writes a cell (the stores, INC,
      DEC, LSR, ROL and ROR) changes nothing: the Uint8Array ignores the
      store. */
  lemma OutsideMemory(h: Handler, m: Machine, address: Num)
    requires GroupOf(h) == MemoryCell && !InRange(address)
    ensures Apply(h, m, address) == Ran(m)
  {
    var v := StoredValue(h, m, Read(m.memory, address));
    MemoryStep(h, m, address, v);
    assert m.(memory := Write(m.memory, address, v)) == m;
  }

  /** Outside memory a load yields `undefined`. */
  lemma LoadOutside(m: Machine, address: Num)
    requires !InRange(address)
    ensures Apply(LDA, m, address) == Ran(m.(A := NaN))
    ensures Apply(LDX, m, address) == Ran(m.(X := NaN))
    ensures Apply(LDY, m, address) == Ran(m.(Y := NaN))
  {
    AccumulatorStep(LDA, m, address, NaN);
    IndexStep(LDX, m, address, m.(X := NaN));
    IndexStep(LDY, m, address, m.(Y := NaN));
  }

  /** Transferring a register and back only copies it: TXA after TAX leaves
      A alone and X equal to A, and likewise for Y and the stack pointer. */
  lemma TransferRoundTrip(m: Machine, address: Num)
    ensures Apply(TXA, Apply(TAX, m, address).m, address) == Ran(m.(X := m.A))
    ensures Apply(TYA, Apply(TAY, m, address).m, address) == Ran(m.(Y := m.A))
    ensures Apply(TXS, Apply(TSX, m, address).m, address) == Ran(m.(X := m.stackPointer))
  {
    TransferX(m, address);
    TransferY(m, address);
    TransferStackPointer(m, address);
  }

  lemma TransferX(m: Machine, address: Num)
    ensures Apply(TXA, Apply(TAX, m, address).m, address) == Ran(m.(X := m.A))
  {
    IndexStep(TAX, m, address, m.(X := m.A));
    IndexStep(TXA, m.(X := m.A), address, m.(X := m.A));
  }

  lemma TransferY(m: Machine, address: Num)
    ensures Apply(TYA, Apply(TAY, m, address).m, address) == Ran(m.(Y := m.A))
  {
    IndexStep(TAY, m, address, m.(Y := m.A));
    IndexStep(TYA, m.(Y := m.A), address, m.(Y := m.A));
  }

  lemma TransferStackPointer(m: Machine, address: Num)
    ensures Apply(TXS, Apply(TSX, m, address).m, address) == Ran(m.(X := m.stackPointer))
  {
    IndexStep(TSX, m, address, m.(X := m.stackPointer));
    IndexStep(TXS, m.(X := m.stackPointer), address, m.(X := m.stackPointer));
  }

  // ---- arithmetic and logic ----

  /** ADC adds the memory value to A with no carry, no flags and no wrap
      (255 + 255 is 510); SBC at the same address takes it back off. */
  lemma AddSubtract(m: Machine, address: Num)
    ensures InRange(address) && m.A.Int? ==>
      Apply(SBC, Apply(ADC, m, address).m, address) == Ran(m)
    ensures InRange(address) && m.A == Int(255) && m.memory[address.i] == 255 ==>
      Apply(ADC, m, address) == Ran(m.(A := Int(510)))
    ensures !InRange(address) ==> Apply(ADC, m, address) == Ran(m.(A := NaN))
  {
  }

  /** On a byte A, EOR twice with the same memory value gives A back. */
  lemma ExclusiveOrTwice(m: Machine, address: Num)
    requires InRange(address) && m.A.Int? && 0 <= m.A.i < 256
    ensures Apply(EOR, Apply(EOR, m, address).m, address) == Ran(m)
  {
    var a: Byte, v: Byte := m.A.i, m.memory[address.i];
    var x := XorBits(a, v, 8);
    ExclusiveOrByte(m, address);
    ExclusiveOrByte(m.(A := Int(x)), address);
    XorByteTwice(a, v);
    assert m.(A := Int(x)).(A := Int(a)) == m;
    Steps(EOR, EOR, m, address, m.(A := Int(x)), m);
  }

  lemma XorByteTwice(a: Byte, v: Byte)
    ensures XorBits(XorBits(a, v, 8), v, 8) == a
  {
    XorBitsTwice(a, v, 8);
    Pow2Values();
  }

  /** EOR on a byte A leaves the bitwise exclusive or of the two bytes. */
  lemma ExclusiveOrByte(m: Machine, address: Num)
    requires InRange(address) && m.A.Int? && 0 <= m.A.i < 256
    ensures var x := XorBits(m.A.i, m.memory[address.i], 8);
      x < 256 && Apply(EOR, m, address) == Ran(m.(A := Int(x)))
  {
    var a: Byte, v: Byte := m.A.i, m.memory[address.i];
    ByteOps(a, v);
    AccumulatorStep(EOR, m, address, Int(XorBits(a, v, 8)));
  }

  /** On a byte A, AND and ORA combine A with the memory value bit by bit
      and leave a byte. */
  lemma AndOrBits(m: Machine, address: Num, j: nat)
    requires InRange(address) && m.A.Int? && 0 <= m.A.i < 256 && j < 8
    ensures var v := m.memory[address.i];
      var and := Apply(AND, m, address).m.A;
      and.Int? && 0 <= and.i < 256 &&
      Bit(and.i, j) == (if Bit(m.A.i, j) == 1 && Bit(v, j) == 1 then 1 else 0)
    ensures var v := m.memory[address.i];
      var or := Apply(ORA, m, address).m.A;
      or.Int? && 0 <= or.i < 256 &&
      Bit(or.i, j) == (if Bit(m.A.i, j) == 1 || Bit(v, j) == 1 then 1 else 0)
  {
    AndBitwise(m, address, j);
    OrBitwise(m, address, j);
  }

  lemma AndBitwise(m: Machine, address: Num, j: nat)
    requires InRange(address) && m.A.Int? && 0 <= m.A.i < 256 && j < 8
    ensures var v := m.memory[address.i];
      var and := Apply(AND, m, address).m.A;
      and.Int? && 0 <= and.i < 256 &&
      Bit(and.i, j) == (if Bit(m.A.i, j) == 1 && Bit(v, j) == 1 then 1 else 0)
  {
    var a: Byte, v: Byte := m.A.i, m.memory[address.i];
    var r := AndBits(a, v, 8);
    ByteOps(a, v);
    ByteBits(a, v);
    AndBitsBit(a, v, 8, j);
    assert Read(m.memory, address) == Int(v);
    AccumulatorStep(AND, m, address, Int(r));
  }

  /** The and and the or of two bytes are bytes. */
  lemma ByteBits(a: Byte, v: Byte)
    ensures AndBits(a, v, 8) < 256 && OrBits(a, v, 8) < 256
  {
    Pow2Values();
  }

  lemma OrBitwise(m: Machine, address: Num, j: nat)
    requires InRange(address) && m.A.Int? && 0 <= m.A.i < 256 && j < 8
    ensures var v := m.memory[address.i];
      var or := Apply(ORA, m, address).m.A;
      or.Int? && 0 <= or.i < 256 &&
      Bit(or.i, j) == (if Bit(m.A.i, j) == 1 || Bit(v, j) == 1 then 1 else 0)
  {
    var a: Byte, v: Byte := m.A.i, m.memory[address.i];
    var r := OrBits(a, v, 8);
    ByteOps(a, v);
    ByteBits(a, v);
    OrBitsBit(a, v, 8, j);
    assert Read(m.memory, address) == Int(v);
    AccumulatorStep(ORA, m, address, Int(r));
  }

  // ---- the stack handlers ----

  /** PLA after PHA gives A back modulo 256 and restores the stack pointer;
      PLP after PHP does the same for the status register, so `undefined`
      comes back as 0. */
  lemma PushPullHandlers(m: Machine, address: Num)
    requires InRange(Add(m.stackPointer, Int(0x100)))
    ensures Apply(PLA, Apply(PHA, m, address).m, address).m.A == Int(ToUint8(m.A))
    ensures Apply(PLA, Apply(PHA, m, address).m, address).m.stackPointer == m.stackPointer
    ensures Apply(PLP, Apply(PHP, m, address).m, address).m.statusRegister
         == Int(ToUint8(m.statusRegister))
    ensures StatusByte(m.statusRegister) && m.statusRegister.Int? ==>
      Apply(PLP, Apply(PHP, m, address).m, address).m.statusRegister == m.statusRegister
  {
    PushPullA(m, address);
    PushPullStatus(m, address);
  }

  lemma PushPullA(m: Machine, address: Num)
    requires InRange(Add(m.stackPointer, Int(0x100)))
    ensures var r := Apply(PLA, Apply(PHA, m, address).m, address).m;
      r.A == Int(ToUint8(m.A)) && r.stackPointer == m.stackPointer
  {
    var pushed := PushSpec(m, m.A);
    var popped := PopSpec(pushed);
    PushThenPop(m, m.A);
    StackStep(PHA, m, address, pushed);
    StackStep(PLA, pushed, address, popped.0.(A := popped.1));
  }

  lemma PushPullStatus(m: Machine, address: Num)
    requires InRange(Add(m.stackPointer, Int(0x100)))
    ensures Apply(PLP, Apply(PHP, m, address).m, address).m.statusRegister
         == Int(ToUint8(m.statusRegister))
  {
    var pushed := PushSpec(m, m.statusRegister);
    var popped := PopSpec(pushed);
    PushThenPop(m, m.statusRegister);
    StackStep(PHP, m, address, pushed);
    StackStep(PLP, pushed, address, popped.0.(statusRegister := popped.1));
  }

  // ---- the status register stays a status byte ----

  /** Whatever handler runs, a status register that is `undefined` or a
      byte stays `undefined` or a byte. */
  lemma StatusInvariant(h: Handler, m: Machine, address: Num)
    requires StatusByte(m.statusRegister)
    ensures StatusByte(Apply(h, m, address).m.statusRegister)
  {
    var value := Read(m.memory, address);
    match GroupOf(h) {
      case Throwing =>
      case Accumulator => AccumulatorStep(h, m, address, AccumulatorValue(h, m.A, value));
      case Jump =>
        JumpStep(h, m, address, JumpTarget(h, m.statusRegister, m.programCounter, address));
      case Status => FlagHandlersKeepByte(h, m, address);
      case MemoryCell => MemoryStep(h, m, address, StoredValue(h, m, value));
      case Index => IndexStep(h, m, address, IndexResult(h, m, value));
      case Stack => StackKeepsByte(h, m, address);
      case NoOperation =>
    }
  }

  lemma FlagHandlersKeepByte(h: Handler, m: Machine, address: Num)
    requires GroupOf(h) == Status && StatusByte(m.statusRegister)
    ensures StatusByte(Apply(h, m, address).m.statusRegister)
  {
    if h in {CLC, CLD, CLI, CLV} {
      ClearFlag(h, m, address);
    } else if h in {SEC, SED, SEI} {
      SetFlag(h, m, address);
    } else if h in {CMP, CPX, CPY} {
      CompareHandlers(h, m, address);
    } else {
      assert h == BIT;
      BitHandler(m, address);
    }
  }

  /** PLP loads a cell or `undefined`; the other stack handlers keep the
      status register. */
  lemma StackKeepsByte(h: Handler, m: Machine, address: Num)
    requires GroupOf(h) == Stack && StatusByte(m.statusRegister)
    ensures StatusByte(Apply(h, m, address).m.statusRegister)
  {
    var after := StackResult(h, m);
    StackStep(h, m, address, after);
    if h == PLP {
      var sp := Add(m.stackPointer, Int(1));
      assert after.statusRegister == Read(m.memory, Add(sp, Int(0x100)));
    }
  }
}
