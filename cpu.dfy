/** Bits of the 6502 status register (src/cpu.js, class Flags). */
module Flags {
  const C: bv8 := 0x01
  const Z: bv8 := 0x02
  const DI: bv8 := 0x04
  const D: bv8 := 0x08
  const B: bv8 := 0x10
  const ALWAYS: bv8 := 0x20
  const V: bv8 := 0x40
  const N: bv8 := 0x80
}

/**
 * The interpreter of src/cpu.js. Its dispatch table has 256 entries; only
 * opcode 0x00 (BRK) has a handler of its own, every other opcode halts.
 *
 * The first half of the module is a pure specification on a `Machine` value
 * (registers plus a copy of memory); the class `CPU` below updates its fields
 * and the memory in place and is proved to follow that specification step
 * by step.
 */
module Processor {
  import opened Bus
  import Flags

  const RESET_VECTOR: Address := 0xFFFC
  const BRK_VECTOR: Address := 0xFFFE
  const STACK_BASE: Address := 0x0100
  const BRK_CYCLES: nat := 7

  /** What a dispatch-table entry runs. */
  datatype Handler = BrkHandler | InvalidHandler

  /** The dispatch table the constructor builds: BRK at 0x00, invalid everywhere else. */
  ghost predicate IsDispatchTable(table: seq<Handler>)
  {
    && |table| == 256
    && table[0x00] == BrkHandler
    && forall op :: 0x01 <= op < 256 ==> table[op] == InvalidHandler
  }

  /** Fills a 256-entry table with the invalid handler, then installs BRK at 0x00. */
  method BuildDispatch() returns (table: seq<Handler>)
    ensures IsDispatchTable(table)
  {
    table := [];
    while |table| < 256
      invariant |table| <= 256
      invariant forall op :: 0 <= op < |table| ==> table[op] == InvalidHandler
    {
      table := table + [InvalidHandler];
    }
    table := table[0x00 := BrkHandler];
  }

  /**
   * `_inc16`: `(x + 1) & 0xFFFF`. For a non-negative number the mask is the
   * remainder modulo 0x10000.
   */
  function Inc16(x: Address): (r: Address)
  {
    (x + 1) % 0x10000
  }

  /** The increment steps to the next address and wraps only at the top. */
  lemma Inc16Wraps(x: Address)
    ensures x < 0xFFFF ==> Inc16(x) == x + 1
    ensures x == 0xFFFF ==> Inc16(x) == 0
    ensures Inc16(x) != x
  {
  }

  /** `(high << 8) | low`: the little-endian word made of two bytes. */
  function Word(low: Byte, high: Byte): (w: Address)
  {
    high * 0x100 + low
  }

  /** `(w >> 8) & 0xFF`, which for a 16-bit `w` is the quotient by 256. */
  function HighByte(w: Address): (b: Byte)
  {
    w / 0x100
  }

  /** `w & 0xFF`, the remainder modulo 256. */
  function LowByte(w: Address): (b: Byte)
  {
    w % 0x100
  }

  /** The source's shift-and-or agrees with `Word`. */
  lemma WordIsShiftOr(low: bv8, high: bv8)
    ensures (((high as bv16) << 8) | low as bv16) as int == Word(low as int, high as int)
  {
  }

  /** Splitting a word into bytes and joining them again gives the word back. */
  lemma WordOfBytes(w: Address)
    ensures Word(LowByte(w), HighByte(w)) == w
  {
  }

  /** Joining two bytes into a word and splitting it again gives the bytes back. */
  lemma BytesOfWord(low: Byte, high: Byte)
    ensures LowByte(Word(low, high)) == low && HighByte(Word(low, high)) == high
  {
  }

  /**
   * `sp | STACK_BASE`: the stack slot `sp` names, in page 1. For a byte the
   * or is the sum (see `StackAddressIsOr`).
   */
  function StackAddress(sp: Byte): (a: Address)
  {
    STACK_BASE + sp
  }

  /** The bitwise definition the source uses agrees with `StackAddress`. */
  lemma StackAddressIsOr(sp: bv8)
    ensures ((sp as bv16) | 0x0100) as int == StackAddress(sp as int)
  {
  }

  /** The register file, the cycle counter and the halted flag. */
  datatype Registers = Registers(
    ip: Address, a: Byte, x: Byte, y: Byte, sp: Byte, flags: bv8,
    cycles: nat, halted: bool)

  /** The CPU's registers together with the contents of its memory. */
  datatype Machine = Machine(regs: Registers, mem: seq<Byte>)

  ghost predicate WellFormed(m: Machine)
  {
    |m.mem| == MEMORY_SIZE
  }

  /** `_readWord`: the little-endian word stored at `address` and `address + 1`. */
  function WordAt(mem: seq<Byte>, address: Address): (w: Address)
    requires |mem| == MEMORY_SIZE && address < MEMORY_SIZE - 1
    ensures LowByte(w) == mem[address] && HighByte(w) == mem[address + 1]
  {
    BytesOfWord(mem[address], mem[address + 1]);
    Word(mem[address], mem[address + 1])
  }

  /** The registers `reset()` sets over memory `mem`. */
  function ResetRegisters(mem: seq<Byte>): (r: Registers)
    requires |mem| == MEMORY_SIZE
    ensures r.flags == 0x24 && r.flags & Flags.ALWAYS != 0 && r.flags & Flags.DI != 0
    ensures LowByte(r.ip) == mem[0xFFFC] && HighByte(r.ip) == mem[0xFFFD]
    ensures r.sp == 0xFD && r.a == 0 && r.x == 0 && r.y == 0 && r.cycles == 0 && !r.halted
  {
    Registers(WordAt(mem, RESET_VECTOR), 0, 0, 0, 0xFD, Flags.ALWAYS | Flags.DI, 0, false)
  }

  /** True when `mem` and `mem'` agree outside the stack page 0x100..0x1FF. */
  ghost predicate SameOutsideStack(mem: seq<Byte>, mem': seq<Byte>)
  {
    && |mem| == |mem'|
    && forall k :: 0 <= k < |mem| && !(0x100 <= k < 0x200) ==> mem'[k] == mem[k]
  }

  /**
   * `_brk`, entered with `ip` already past the opcode. When `sp` is at most
   * 2 it only halts (three pushes would take `sp` below 0); otherwise it
   * pushes the return address (high byte first) and the flags with B set,
   * sets DI, jumps through the vector at 0xFFFE and charges 7 cycles.
   */
  function ExecBrk(m: Machine): (m': Machine)
    requires WellFormed(m)
    ensures WellFormed(m')
  {
    var r := m.regs;
    var ret := Inc16(r.ip);
    if r.sp <= 2 then
      m.(regs := r.(halted := true))
    else
      Machine(
        r.(sp := r.sp - 3, flags := r.flags | Flags.DI, ip := WordAt(m.mem, BRK_VECTOR),
           cycles := r.cycles + BRK_CYCLES),
        m.mem[StackAddress(r.sp) := HighByte(ret)]
             [StackAddress(r.sp - 1) := LowByte(ret)]
             [StackAddress(r.sp - 2) := (r.flags | Flags.B) as int])
  }

  /**
   * With `sp` above 2, BRK pushes the return address `ip + 1` (the
   * two bytes read back little-endian as that word) and below it the flags
   * with B set; no other cell changes.
   */
  lemma BrkPushes(m: Machine)
    requires WellFormed(m) && m.regs.sp > 2
    ensures var mem', top := ExecBrk(m).mem, StackAddress(m.regs.sp);
      && Word(mem'[top - 1], mem'[top]) == Inc16(m.regs.ip)
      && mem'[top - 2] == (m.regs.flags | Flags.B) as int
      && forall k :: 0 <= k < MEMORY_SIZE && !(top - 2 <= k <= top) ==> mem'[k] == m.mem[k]
  {
    WordOfBytes(Inc16(m.regs.ip));
  }

  /**
   * The registers after a BRK with `sp` above 2: `sp` drops by 3, DI is
   * set in the live flags while every other bit (B included) is kept, `ip`
   * comes from the vector at 0xFFFE, 7 cycles are charged and A, X, Y and
   * the halted flag stay.
   */
  lemma BrkRegisters(m: Machine)
    requires WellFormed(m) && m.regs.sp > 2
    ensures var m', r, r' := ExecBrk(m), m.regs, ExecBrk(m).regs;
      && r'.sp == r.sp - 3
      && r'.flags & Flags.DI == Flags.DI
      && r'.flags & !Flags.DI == r.flags & !Flags.DI
      && LowByte(r'.ip) == m.mem[0xFFFE] && HighByte(r'.ip) == m.mem[0xFFFF]
      && r'.ip == WordAt(m'.mem, BRK_VECTOR)
      && r'.cycles == r.cycles + BRK_CYCLES
      && r'.a == r.a && r'.x == r.x && r'.y == r.y && r'.halted == r.halted
  {
  }

  /** When `sp` is at most 2 (three pushes would take it below 0) BRK halts and changes nothing else. */
  lemma BrkHaltsOnFullStack(m: Machine)
    requires WellFormed(m) && m.regs.sp <= 2
    ensures ExecBrk(m) == m.(regs := m.regs.(halted := true))
  {
  }

  /** `_invalidInstruction`: halts and changes nothing else. */
  function ExecInvalid(m: Machine): (m': Machine)
    ensures m'.regs.halted && m'.mem == m.mem
    ensures m'.regs.(halted := m.regs.halted) == m.regs
  {
    m.(regs := m.regs.(halted := true))
  }

  /**
   * `step()`: nothing on a halted CPU; otherwise fetch the opcode at `ip`,
   * advance `ip` and run the opcode's handler from the dispatch table.
   */
  function StepMachine(m: Machine): (m': Machine)
    requires WellFormed(m)
    ensures WellFormed(m')
  {
    if m.regs.halted then
      m
    else
      var op := m.mem[m.regs.ip];
      var fetched := m.(regs := m.regs.(ip := Inc16(m.regs.ip)));
      if op == 0x00 then ExecBrk(fetched) else ExecInvalid(fetched)
  }

  /** A halted CPU does not move; a running one either halts or charges a BRK. */
  lemma StepOutcomes(m: Machine)
    requires WellFormed(m)
    ensures var m' := StepMachine(m);
      && (m.regs.halted ==> m' == m)
      && (!m'.regs.halted ==> !m.regs.halted && m'.regs.cycles == m.regs.cycles + BRK_CYCLES)
      && (m'.regs.halted ==> m'.regs.cycles == m.regs.cycles)
  {
  }

  /** Every opcode other than 0x00 halts with `ip` past it and nothing else changed. */
  lemma InvalidOpcodeHalts(m: Machine)
    requires WellFormed(m) && !m.regs.halted && m.mem[m.regs.ip] != 0x00
    ensures StepMachine(m) == m.(regs := m.regs.(ip := Inc16(m.regs.ip), halted := true))
  {
  }

  /**
   * A BRK at `ip` on a running CPU with `sp` above 2: the pushed
   * return address is the address after the BRK's padding byte (`ip + 2`),
   * the pushed flags carry B, and execution continues at the BRK vector.
   */
  lemma BrkStep(m: Machine)
    requires WellFormed(m) && !m.regs.halted && m.mem[m.regs.ip] == 0x00 && m.regs.sp > 2
    ensures var m', top := StepMachine(m), StackAddress(m.regs.sp);
      && Word(m'.mem[top - 1], m'.mem[top]) == Inc16(Inc16(m.regs.ip))
      && m'.mem[top - 2] == (m.regs.flags | Flags.B) as int
      && m'.regs.sp == m.regs.sp - 3
      && m'.regs.ip == WordAt(m.mem, BRK_VECTOR)
      && m'.regs.cycles == m.regs.cycles + BRK_CYCLES
      && !m'.regs.halted
  {
    var fetched := m.(regs := m.regs.(ip := Inc16(m.regs.ip)));
    assert StepMachine(m) == ExecBrk(fetched);
    BrkPushes(fetched);
    BrkRegisters(fetched);
  }

  /** A BRK with `sp <= 2` halts with nothing written and no cycles charged. */
  lemma BrkStackExhausted(m: Machine)
    requires WellFormed(m) && !m.regs.halted && m.mem[m.regs.ip] == 0x00 && m.regs.sp <= 2
    ensures StepMachine(m) == m.(regs := m.regs.(ip := Inc16(m.regs.ip), halted := true))
  {
    var fetched := m.(regs := m.regs.(ip := Inc16(m.regs.ip)));
    assert StepMachine(m) == ExecBrk(fetched);
    BrkHaltsOnFullStack(fetched);
  }

  /**
   * The BRK scenario of the repository's interrupt test: with `sp = 0xFF`,
   * `ip = 0x1000` and only C set, one step charges 7 cycles, leaves C and DI
   * set, lowers `sp` to 0xFC and leaves 0x10, 0x02 and C|B on the stack.
   */
  lemma BrkInterruptExample(m: Machine)
    requires WellFormed(m) && !m.regs.halted
    requires m.regs.sp == 0xFF && m.regs.ip == 0x1000 && m.regs.flags == Flags.C
    requires m.mem[0x1000] == 0x00
    ensures var m' := StepMachine(m);
      && m'.regs.cycles - m.regs.cycles == 7
      && m'.regs.flags == Flags.C | Flags.DI
      && m'.regs.sp == 0xFC
      && m'.mem[0x01FF] == 0x10 && m'.mem[0x01FE] == 0x02
      && m'.mem[0x01FD] == (Flags.C | Flags.B) as int
  {
    var fetched := m.(regs := m.regs.(ip := Inc16(m.regs.ip)));
    assert StepMachine(m) == ExecBrk(fetched);
    BrkRegisters(fetched);
    assert Inc16(fetched.regs.ip) == 0x1002;
  }

  /** A step writes nothing outside the stack page. */
  lemma StepWritesOnlyStack(m: Machine)
    requires WellFormed(m)
    ensures SameOutsideStack(m.mem, StepMachine(m).mem)
  {
    if !m.regs.halted && m.mem[m.regs.ip] == 0x00 {
      var fetched := m.(regs := m.regs.(ip := Inc16(m.regs.ip)));
      if fetched.regs.sp > 2 {
        BrkPushes(fetched);
      }
    }
  }

  /** `n` consecutive calls of `step()`. */
  function Run(m: Machine, n: nat): (m': Machine)
    requires WellFormed(m)
    ensures WellFormed(m')
    decreases n
  {
    if n == 0 then m else Run(StepMachine(m), n - 1)
  }

  /** Running one more step is stepping the state `n` steps reach. */
  lemma {:induction false} RunOneMore(m: Machine, n: nat)
    requires WellFormed(m)
    ensures Run(m, n + 1) == StepMachine(Run(m, n))
    decreases n
  {
    if n > 0 {
      RunOneMore(StepMachine(m), n - 1);
    }
  }

  /** Halted is terminal: further steps change nothing. */
  lemma {:induction false} HaltedIsTerminal(m: Machine, n: nat)
    requires WellFormed(m) && m.regs.halted
    ensures Run(m, n) == m
    decreases n
  {
    if n > 0 {
      StepOutcomes(m);
      HaltedIsTerminal(StepMachine(m), n - 1);
    }
  }

  /**
   * Over any number of steps the cycle counter never decreases and grows by a
   * multiple of 7 (one BRK each), at most 7 per step.
   */
  lemma {:induction false} CyclesAccount(m: Machine, n: nat)
    requires WellFormed(m)
    ensures var c, c' := m.regs.cycles, Run(m, n).regs.cycles;
      c <= c' <= c + BRK_CYCLES * n && (c' - c) % BRK_CYCLES == 0
    decreases n
  {
    if n > 0 {
      var m1 := StepMachine(m);
      StepOutcomes(m);
      CyclesAccount(m1, n - 1);
      assert Run(m, n) == Run(m1, n - 1);
      SevenMore(m.regs.cycles, m1.regs.cycles, Run(m, n).regs.cycles, n);
    }
  }

  /** The arithmetic step of `CyclesAccount`. */
  lemma SevenMore(c: int, mid: int, c': int, n: nat)
    requires n > 0
    requires mid == c || mid == c + 7
    requires mid <= c' <= mid + 7 * (n - 1) && (c' - mid) % 7 == 0
    ensures c <= c' <= c + 7 * n && (c' - c) % 7 == 0
  {
  }

  /** Steps write only to the stack page, so ROM images and vectors stay intact. */
  lemma {:induction false} RunWritesOnlyStack(m: Machine, n: nat)
    requires WellFormed(m)
    ensures SameOutsideStack(m.mem, Run(m, n).mem)
    decreases n
  {
    if n > 0 {
      StepWritesOnlyStack(m);
      RunWritesOnlyStack(StepMachine(m), n - 1);
    }
  }

  class CPU {
    const memory: Memory
    const dispatch: seq<Handler>

    var ip: Address
    var a: Byte
    var x: Byte
    var y: Byte
    var sp: Byte
    var flags: bv8
    var cycles: nat
    var halted: bool

    ghost predicate Valid()
      reads this
    {
      memory.Valid() && IsDispatchTable(dispatch)
    }

    ghost function Regs(): Registers
      reads this
    {
      Registers(ip, a, x, y, sp, flags, cycles, halted)
    }

    ghost function State(): Machine
      reads this, memory.cells
    {
      Machine(Regs(), memory.cells[..])
    }

    constructor (memory: Memory)
      requires memory.Valid()
      ensures Valid() && this.memory == memory
      ensures Regs() == ResetRegisters(memory.cells[..])
    {
      this.memory := memory;
      var table := BuildDispatch();
      dispatch := table;
      new;
      Reset();
    }

    /** Sets every register from constants and the reset vector; memory is untouched. */
    method Reset()
      requires Valid()
      modifies this
      ensures Valid()
      ensures Regs() == ResetRegisters(memory.cells[..])
    {
      sp := 0xFD;
      a := 0;
      x := 0;
      y := 0;
      flags := Flags.ALWAYS | Flags.DI;
      ip := ReadWord(RESET_VECTOR);
      cycles := 0;
      halted := false;
    }

    method Step()
      requires Valid()
      modifies this, memory.cells
      ensures Valid()
      ensures State() == StepMachine(old(State()))
    {
      if halted {
        return;
      }
      var op := memory.ReadByte(ip);
      ip := Inc16(ip);
      match dispatch[op]
      case BrkHandler => Brk();
      case InvalidHandler => InvalidInstruction();
    }

    method IsHalted() returns (h: bool)
      ensures h == halted
    {
      h := halted;
    }

    method Cycles() returns (c: nat)
      ensures c == cycles
    {
      c := cycles;
    }

    method Brk()
      requires Valid()
      modifies this, memory.cells
      ensures Valid()
      ensures Regs() == ExecBrk(old(State())).regs
      ensures memory.cells[..] == ExecBrk(old(State())).mem
    {
      var ret := Inc16(ip);
      var vector := ReadWord(BRK_VECTOR);

      if sp <= 2 {
        halted := true;
        return;
      }

      memory.WriteByte(StackAddress(sp), HighByte(ret));
      sp := sp - 1;
      memory.WriteByte(StackAddress(sp), LowByte(ret));
      sp := sp - 1;
      memory.WriteByte(StackAddress(sp), (flags | Flags.B) as int);
      sp := sp - 1;

      flags := flags | Flags.DI;

      ip := vector;
      cycles := cycles + BRK_CYCLES;
    }

    method InvalidInstruction()
      modifies this
      ensures Regs() == old(Regs()).(halted := true)
    {
      halted := true;
    }

    method ReadWord(address: Address) returns (w: Address)
      requires Valid() && address < MEMORY_SIZE - 1
      ensures w == WordAt(memory.cells[..], address)
    {
      var low := memory.ReadByte(address);
      var high := memory.ReadByte(address + 1);
      w := Word(low, high);
    }
  }
}
