// The CPU object of cpu.js: the opcode table and one state object, with
// `load`, `tick`, `run` and `getState`.

module Cpu {
  import opened Wrappers
  import opened JsNumber
  import opened CpuState
  import opened AddressModes
  import opened InstructionTypes
  import opened Instructions
  import HandlerProperties

  /** `instructions[opcode]` for the value read at the program counter: a
      byte has its slot, `undefined` has none. */
  function FetchEntry(t: Table, opcode: Num): (r: Option<Entry>)
    ensures r.Some? ==> opcode.Int? && 0 <= opcode.i < 256 && t[opcode.i] == r
  {
    if opcode.Int? && 0 <= opcode.i < 256 then t[opcode.i] else None
  }

  /** `tick` on a snapshot: read the opcode, step the program counter past
      it, then call the entry; calling a hole throws a TypeError after the
      program counter has moved. */
  function Step(t: Table, m: Machine): Outcome {
    var next := m.(programCounter := Add(m.programCounter, Int(1)));
    match FetchEntry(t, Read(m.memory, m.programCounter))
    case None => Threw(next)
    case Some(e) => Perform(e, next)
  }

  /** `memory.set(rom, START_PROGRAM)`: the ROM's values, converted with
      ToUint8, over the cells from START_PROGRAM on; a ROM that does not
      fit raises a RangeError before anything is written. */
  function LoadSpec(mem: Memory, rom: seq<Num>): Result<Memory, string> {
    if |rom| > MEMORY_SIZE - START_PROGRAM then Failure("RangeError: offset is out of bounds")
    else
      var loaded: Memory := mem[..START_PROGRAM] + Converted(rom) + mem[START_PROGRAM + |rom|..];
      Success(loaded)
  }

  /** Each value as the typed array stores it. */
  function Converted(rom: seq<Num>): (r: seq<Byte>)
    ensures |r| == |rom| && forall k :: 0 <= k < |rom| ==> r[k] == ToUint8(rom[k])
  {
    if rom == [] then [] else Converted(rom[..|rom| - 1]) + [ToUint8(rom[|rom| - 1])]
  }

  /** A ROM that fits lands cell by cell from START_PROGRAM; every other
      cell keeps its value. */
  lemma LoadCells(mem: Memory, rom: seq<Num>, i: int)
    requires 0 <= i < MEMORY_SIZE
    ensures LoadSpec(mem, rom).Success? <==> |rom| <= MEMORY_SIZE - START_PROGRAM
    ensures LoadSpec(mem, rom).Success? ==>
      LoadSpec(mem, rom).value[i]
        == if START_PROGRAM <= i < START_PROGRAM + |rom| then ToUint8(rom[i - START_PROGRAM]) else mem[i]
  {
    if |rom| <= MEMORY_SIZE - START_PROGRAM {
      var loaded := LoadSpec(mem, rom).value;
      var converted := Converted(rom);
      if i < START_PROGRAM {
        assert loaded[i] == mem[..START_PROGRAM][i];
      } else if i < START_PROGRAM + |rom| {
        assert loaded[i] == converted[i - START_PROGRAM];
      } else {
        assert loaded[i] == mem[START_PROGRAM + |rom|..][i - START_PROGRAM - |rom|];
      }
    }
  }

  /** How `run` ended: at the stop opcode, by a handler or a hole throwing,
      or (in this model only) with its tick budget spent. */
  datatype RunOutcome = Stopped(m: Machine) | Failed(m: Machine) | OutOfFuel(m: Machine)

  /** `tick` over the table t, as a function. */
  function Ticker(t: Table): Machine -> Outcome {
    m => Step(t, m)
  }

  /** `run({ stopOpcode })` with at most `fuel` ticks, for a given tick:
      the lemmas below hold whatever a tick does. */
  function RunSpec(tick: Machine -> Outcome, m: Machine, stopOpcode: int, fuel: nat): RunOutcome
    decreases fuel
  {
    if Read(m.memory, m.programCounter) == Int(stopOpcode) then Stopped(m)
    else if fuel == 0 then OutOfFuel(m)
    else match tick(m)
      case Threw(after) => Failed(after)
      case Ran(after) => RunSpec(tick, after, stopOpcode, fuel - 1)
  }

  /** Whenever `run` returns normally, the program counter is at the stop
      opcode. */
  lemma {:induction false} StopsAtStopOpcode(tick: Machine -> Outcome, m: Machine, stopOpcode: int, fuel: nat)
    requires RunSpec(tick, m, stopOpcode, fuel).Stopped?
    ensures var r := RunSpec(tick, m, stopOpcode, fuel).m;
      Read(r.memory, r.programCounter) == Int(stopOpcode)
    decreases fuel
  {
    if Read(m.memory, m.programCounter) != Int(stopOpcode) {
      StopsAtStopOpcode(tick, tick(m).m, stopOpcode, fuel - 1);
    }
  }

  /** More ticks never change a run that ended: the budget only decides
      whether a run that has not ended is reported. */
  lemma {:induction false} MoreFuel(tick: Machine -> Outcome, m: Machine, stopOpcode: int, fuel: nat, extra: nat)
    requires !RunSpec(tick, m, stopOpcode, fuel).OutOfFuel?
    ensures RunSpec(tick, m, stopOpcode, fuel + extra) == RunSpec(tick, m, stopOpcode, fuel)
    decreases fuel
  {
    if Read(m.memory, m.programCounter) != Int(stopOpcode) && tick(m).Ran? {
      MoreFuel(tick, tick(m).m, stopOpcode, fuel - 1, extra);
    }
  }

  /** One tick of a run that has not reached the stop opcode. */
  lemma RunStep(tick: Machine -> Outcome, m: Machine, stopOpcode: int, fuel: nat, threw: bool, after: Machine)
    requires Read(m.memory, m.programCounter) != Int(stopOpcode) && fuel > 0
    requires tick(m) == if threw then Threw(after) else Ran(after)
    ensures RunSpec(tick, m, stopOpcode, fuel)
         == if threw then Failed(after) else RunSpec(tick, after, stopOpcode, fuel - 1)
  {
  }

  /** The machine makeCpu starts from, once the ROM is loaded. */
  class Cpu {
    const instructions: array<Option<Entry>>
    const state: State
    /** The contents of `instructions`, which no method changes. */
    ghost const table: Table

    ghost predicate Valid()
      reads this, instructions, state
    {
      && state.Valid()
      && instructions.Length == 256
      && instructions[..] == table
    }

    /** makeCpu */
    constructor ()
      ensures Valid() && fresh(state) && fresh(state.memory)
      ensures table == TABLE
      ensures forall opcode :: 0 <= opcode < 256 ==> instructions[opcode] == Dispatch(opcode)
      ensures state.Snapshot() == Fresh()
    {
      var built := MakeInstructions();
      instructions := built;
      table := built[..];
      state := new State();
    }

    /** `getState` hands out the CPU's own state object, not a copy. */
    method GetState() returns (s: State)
      ensures s == state
    {
      s := state;
    }

    /** `load`: the typed array's `set`, one cell at a time. */
    method Load(rom: seq<Num>) returns (r: Result<(), string>)
      requires Valid()
      modifies state.memory
      ensures Valid()
      ensures r.Failure? <==> LoadSpec(old(state.memory[..]), rom).Failure?
      ensures r.Success? ==> state.memory[..] == LoadSpec(old(state.memory[..]), rom).value
      ensures r.Failure? ==> state.memory[..] == old(state.memory[..])
    {
      if |rom| > MEMORY_SIZE - START_PROGRAM {
        return Failure("RangeError: offset is out of bounds");
      }
      ghost var before := state.memory[..];
      var k := 0;
      while k < |rom|
        invariant 0 <= k <= |rom|
        invariant forall i :: 0 <= i < MEMORY_SIZE ==>
          state.memory[i] == if START_PROGRAM <= i < START_PROGRAM + k
                             then ToUint8(rom[i - START_PROGRAM]) else before[i]
      {
        state.memory[START_PROGRAM + k] := ToUint8(rom[k]);
        k := k + 1;
      }
      forall i | 0 <= i < MEMORY_SIZE
        ensures state.memory[i] == LoadSpec(before, rom).value[i]
      {
        LoadCells(before, rom, i);
      }
      r := Success(());
    }

    /** `tick` */
    method Tick() returns (threw: bool)
      requires Valid()
      modifies state, state.memory
      ensures Valid()
      ensures Step(table, old(state.Snapshot())) == if threw then Threw(state.Snapshot()) else Ran(state.Snapshot())
    {
      var opcode := state.Get(state.programCounter);
      var entry := if opcode.Int? && 0 <= opcode.i < 256 then instructions[opcode.i] else None;
      state.programCounter := Add(state.programCounter, Int(1));
      match entry {
        case None =>
          threw := true;
        case Some(e) =>
          threw := Invoke(state, e);
      }
    }

    /** One tick of `run`, stated on the run it belongs to. */
    method Advance(stopOpcode: int, left: nat, ghost spec: RunOutcome) returns (threw: bool)
      requires Valid() && left > 0
      requires Read(state.memory[..], state.programCounter) != Int(stopOpcode)
      requires spec == RunSpec(Ticker(table), state.Snapshot(), stopOpcode, left)
      modifies state, state.memory
      ensures Valid()
      ensures spec == if threw then Failed(state.Snapshot())
                      else RunSpec(Ticker(table), state.Snapshot(), stopOpcode, left - 1)
    {
      ghost var before := state.Snapshot();
      threw := Tick();
      RunStep(Ticker(table), before, stopOpcode, left, threw, state.Snapshot());
    }

    /** `run({ stopOpcode })`: tick until the byte at the program counter
        is the stop opcode, at most `fuel` times. */
    method Run(stopOpcode: int, fuel: nat) returns (result: RunOutcome)
      requires Valid()
      modifies state, state.memory
      ensures Valid()
      ensures result == RunSpec(Ticker(table), old(state.Snapshot()), stopOpcode, fuel)
      ensures result.m == state.Snapshot()
    {
      var left: nat := fuel;
      ghost var spec := RunSpec(Ticker(table), state.Snapshot(), stopOpcode, fuel);
      while state.Get(state.programCounter) != Int(stopOpcode)
        invariant Valid() && left <= fuel
        invariant spec == RunSpec(Ticker(table), state.Snapshot(), stopOpcode, left)
        decreases left
      {
        if left == 0 {
          return OutOfFuel(state.Snapshot());
        }
        var threw := Advance(stopOpcode, left, spec);
        if threw {
          return Failed(state.Snapshot());
        }
        left := left - 1;
      }
      result := Stopped(state.Snapshot());
    }
  }

  // ---- programs from the emulator's test vectors ----

  /** A fresh machine with the ROM loaded. */
  function Booted(rom: seq<Num>): (m: Machine)
    requires |rom| <= MEMORY_SIZE - START_PROGRAM
  {
    Fresh().(memory := LoadSpec(Fresh().memory, rom).value)
  }

  lemma BootedCell(rom: seq<Num>, i: int)
    requires |rom| <= MEMORY_SIZE - START_PROGRAM && 0 <= i < MEMORY_SIZE
    ensures Booted(rom).memory[i]
         == if START_PROGRAM <= i < START_PROGRAM + |rom| then ToUint8(rom[i - START_PROGRAM]) else 0
  {
    LoadCells(Fresh().memory, rom, i);
  }

  /** A program whose first instruction returns onto a zero byte stops
      after that one tick when the stop opcode is 0. */
  lemma OneTick(m: Machine, opcode: Byte, e: Entry, after: Machine)
    requires m.programCounter == Int(START_PROGRAM) && m.memory[START_PROGRAM] == opcode
    requires opcode != 0 && Dispatch(opcode) == Some(e)
    requires Perform(e, m.(programCounter := Int(START_PROGRAM + 1))) == Ran(after)
    requires Read(after.memory, after.programCounter) == Int(0)
    ensures RunSpec(Ticker(TABLE), m, 0, 1) == Stopped(after)
  {
    assert FetchEntry(TABLE, Read(m.memory, m.programCounter)) == Some(e);
    RunStep(Ticker(TABLE), m, 0, 1, false, after);
  }

  /** `ADC #$23` (0x69 0x23) from a fresh state stops after one tick with
      A = 0x23 and the program counter at 0x202. */
  lemma AddImmediate()
    ensures var m := Booted([Int(0x69), Int(0x23)]);
      RunSpec(Ticker(TABLE), m, 0, 1) == Stopped(m.(A := Int(0x23), programCounter := Int(0x202)))
  {
    var m := Booted([Int(0x69), Int(0x23)]);
    BootedCell([Int(0x69), Int(0x23)], 0x200);
    BootedCell([Int(0x69), Int(0x23)], 0x201);
    BootedCell([Int(0x69), Int(0x23)], 0x202);
    var next := m.(programCounter := Int(0x201));
    var e := Entry(ADC, Some(Immediate));
    HandlerProperties.AccumulatorStep(ADC, next, Int(0x201), Int(0x23));
    Wrapped(e, next, next.(A := Int(0x23)));
    OneTick(m, 0x69, e, m.(A := Int(0x23), programCounter := Int(0x202)));
  }

  /** `DEX` (0xCA) from a fresh state: X goes from 0 to 255 and the program
      counter to 0x201. */
  lemma DecrementXFromZero()
    ensures var m := Booted([Int(0xCA)]);
      RunSpec(Ticker(TABLE), m, 0, 1) == Stopped(m.(X := Int(255), programCounter := Int(0x201)))
  {
    var m := Booted([Int(0xCA)]);
    BootedCell([Int(0xCA)], 0x200);
    BootedCell([Int(0xCA)], 0x201);
    var next := m.(programCounter := Int(0x201));
    HandlerProperties.IndexStep(DEX, next, NaN, next.(X := Int(255)));
    OneTick(m, 0xCA, Entry(DEX, None), next.(X := Int(255)));
  }

  /** `INC $23` (0xE6 0x23) from a fresh state: cell 0x23 becomes 1 and the
      program counter moves to 0x202. */
  lemma IncrementZeroPage()
    ensures var m := Booted([Int(0xE6), Int(0x23)]);
      RunSpec(Ticker(TABLE), m, 0, 1)
        == Stopped(m.(memory := m.memory[0x23 := 1], programCounter := Int(0x202)))
  {
    var rom := [Int(0xE6), Int(0x23)];
    var m := Booted(rom);
    BootedCell(rom, 0x23);
    BootedCell(rom, 0x200);
    BootedCell(rom, 0x201);
    BootedCell(rom, 0x202);
    var next := m.(programCounter := Int(0x201));
    var e := Entry(INC, Some(ZeroPage));
    assert GetAddress(ZeroPage, next) == Int(0x23);
    var stored := next.(memory := m.memory[0x23 := 1]);
    HandlerProperties.CellStep(INC, next, Int(0x23), 1);
    Wrapped(e, next, stored);
    OneTick(m, 0xE6, e, stored.(programCounter := Int(0x202)));
  }

  /** `ADC $2345` (0x6D 0x45 0x23) from a fresh state: A stays 0 and the
      program counter moves past the two operand bytes to 0x203. */
  lemma AddAbsolute()
    ensures var m := Booted([Int(0x6D), Int(0x45), Int(0x23)]);
      RunSpec(Ticker(TABLE), m, 0, 1) == Stopped(m.(programCounter := Int(0x203)))
  {
    var rom := [Int(0x6D), Int(0x45), Int(0x23)];
    var m := Booted(rom);
    BootedCell(rom, 0x200);
    BootedCell(rom, 0x201);
    BootedCell(rom, 0x202);
    BootedCell(rom, 0x203);
    BootedCell(rom, 0x2345);
    var next := m.(programCounter := Int(0x201));
    var e := Entry(ADC, Some(Absolute));
    AbsoluteAddress(next);
    assert GetAddress(Absolute, next) == Int(0x2345);
    HandlerProperties.AccumulatorStep(ADC, next, Int(0x2345), Int(0));
    Wrapped(e, next, next);
    OneTick(m, 0x6D, e, m.(programCounter := Int(0x203)));
  }
}
