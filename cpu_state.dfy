// The state object of the emulator: 64 KiB of Uint8Array memory and the
// registers, which are plain JavaScript numbers.

module CpuState {
  import opened JsNumber

  const MEMORY_SIZE: nat := 0x10000

  /** The first address of the program area (START_PROGRAM). */
  const START_PROGRAM: int := 0x200

  type Memory = s: seq<Byte> | |s| == MEMORY_SIZE witness seq(0x10000, _ => 0)

  /** Whether `memory[i]` names a cell of the Uint8Array. */
  predicate InRange(i: Num) {
    i.Int? && 0 <= i.i < MEMORY_SIZE
  }

  /** `memory[i]`: the cell, or `undefined` (NaN here) outside the array. */
  function Read(mem: Memory, i: Num): Num {
    if InRange(i) then Int(mem[i.i]) else NaN
  }

  /** `memory[i] = v` at an integer or NaN index: a Uint8Array store
      converts v with ToUint8 and ignores indices outside the array. At the
      index `undefined` JavaScript instead adds an ordinary property, which a
      later read at `undefined` returns; that case is not modelled and writes
      nothing here. */
  function Write(mem: Memory, i: Num, v: Num): Memory {
    if InRange(i) then mem[i.i := ToUint8(v)] else mem
  }

  /** The value a bitwise operator sees when it reads `memory[i]`. */
  function Cell(mem: Memory, i: Num): Byte {
    if InRange(i) then mem[i.i] else 0
  }

  lemma ReadAsUint32(mem: Memory, i: Num)
    ensures ToUint32(Read(mem, i)) == Cell(mem, i)
  {
  }

  /** A cell read back after a store holds the stored value modulo 256. */
  lemma ReadAfterWrite(mem: Memory, i: Num, j: Num, v: Num)
    requires InRange(i)
    ensures Read(Write(mem, i, v), j) == if j == i then Int(ToUint8(v)) else Read(mem, j)
  {
  }

  /** The snapshot of every field the handlers read or write. */
  datatype Machine = Machine(
    memory: Memory,
    A: Num,
    X: Num,
    Y: Num,
    stackPointer: Num,
    programCounter: Num,
    statusRegister: Num)

  /** The six flag fields `makeState` creates under `status`; no handler
      reads or writes them. */
  datatype StatusFields = StatusFields(
    negative: int, overflow: int, decimal: int, interrupt: int, zero: int, carry: int)

  /** What `makeState` returns. `statusRegister` is never created, so it
      reads as `undefined`, which is NaN here. */
  function Fresh(): (m: Machine)
    ensures forall i :: 0 <= i < MEMORY_SIZE ==> m.memory[i] == 0
    ensures m.programCounter == Int(START_PROGRAM) && m.stackPointer == Int(0xFF)
    ensures m.A == Int(0) && m.X == Int(0) && m.Y == Int(0) && m.statusRegister == NaN
  {
    Machine(seq(MEMORY_SIZE, _ => 0), Int(0), Int(0), Int(0), Int(0xFF), Int(START_PROGRAM), NaN)
  }

  /** The mutable state object shared by the CPU and every handler. */
  class State {
    const memory: array<Byte>
    const status: StatusFields
    var programCounter: Num
    var stackPointer: Num
    var X: Num
    var Y: Num
    var A: Num
    var statusRegister: Num

    ghost predicate Valid()
      reads this
    {
      memory.Length == MEMORY_SIZE
    }

    function Snapshot(): (m: Machine)
      reads this, memory
      requires Valid()
      ensures m.memory == memory[..]
    {
      Machine(memory[..], A, X, Y, stackPointer, programCounter, statusRegister)
    }

    /** makeState */
    constructor ()
      ensures Valid() && fresh(memory)
      ensures Snapshot() == Fresh()
      ensures status == StatusFields(0, 0, 0, 0, 0, 0)
    {
      memory := new Byte[MEMORY_SIZE](_ => 0);
      status := StatusFields(0, 0, 0, 0, 0, 0);
      programCounter := Int(START_PROGRAM);
      stackPointer := Int(0xFF);
      X := Int(0);
      Y := Int(0);
      A := Int(0);
      statusRegister := NaN;
      new;
      assert memory[..] == Fresh().memory;
    }

    /** `memory[i]` on the array itself. */
    function Get(i: Num): (r: Num)
      reads this, memory
      requires Valid()
      ensures r == Read(memory[..], i)
    {
      if InRange(i) then Int(memory[i.i]) else NaN
    }

    /** `memory[i] = v` on the array itself. */
    method Store(i: Num, v: Num)
      requires Valid()
      modifies memory
      ensures memory[..] == Write(old(memory[..]), i, v)
    {
      if InRange(i) {
        memory[i.i] := ToUint8(v);
      }
    }
  }
}
