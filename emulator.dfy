/**
 * The driver of src/Emulator.js: it installs the two ROM images, resets the
 * CPU and then runs it in time slices of 10 ms worth of cycles (10000 cycles
 * at 1 MHz), scheduling the next slice until the CPU halts.
 *
 * Fetching the ROM files, the wall clock and the timer are outside the
 * model: the fetched bytes and the elapsed milliseconds of a slice are
 * parameters, and the timer request is the returned `Schedule`.
 */
module Scheduler {
  import opened Bus
  import opened Processor

  const CLOCK_RATE := 1000 * 1000
  const TICK_MS := 10
  const CLOCKS_PER_TICK := (CLOCK_RATE * TICK_MS) / 1000

  /** A ROM file and where its bytes go: `slice(romOffset, length)` of the file, installed at `address`. */
  datatype RomImage = RomImage(url: string, romOffset: nat, length: nat, address: Address)

  /** The monitor ROM: bytes 0x100 up to 0x400 of the file, at 0xFD00. */
  const SYN600 := RomImage("SYN600.ROM", 0x0100, 0x0400, 0xFD00)

  /** The BASIC ROM: bytes 0 up to 0x2000 of the file, at 0xA000. */
  const OSIBASIC := RomImage("OSIBASIC.ROM", 0x0000, 0x2000, 0xA000)

  /** What a slice asks of the timer: nothing more, or another slice after `delay` ms. */
  datatype Schedule = Stop | After(delay: int)

  /**
   * `Uint8Array.prototype.slice(start, end)` for non-negative arguments:
   * both bounds are clamped to the length, and an empty range gives an
   * empty array. The second argument is an end index, not a length.
   */
  function Slice(bytes: seq<Byte>, start: nat, end: nat): (r: seq<Byte>)
    ensures |r| <= |bytes|
    ensures start <= end ==> |r| <= end - start
    ensures start <= end && end <= |bytes| ==> |r| == end - start
    ensures start <= end ==>
      |r| == (if end < |bytes| then end else |bytes|) - (if start < |bytes| then start else |bytes|)
    ensures end < start ==> r == []
    ensures forall i :: 0 <= i < |r| ==> start + i < |bytes| && r[i] == bytes[start + i]
  {
    var from := if start < |bytes| then start else |bytes|;
    var to := if end < |bytes| then end else |bytes|;
    if from < to then bytes[from..to] else []
  }

  /** The bytes of `file` that `rom` installs. */
  function ImageOf(rom: RomImage, file: seq<Byte>): (image: seq<Byte>)
    ensures rom.romOffset <= rom.length <= |file| ==> image == file[rom.romOffset..rom.length]
    ensures |file| <= rom.romOffset ==> image == []
  {
    Slice(file, rom.romOffset, rom.length)
  }

  /**
   * Whatever the ROM files hold, both images fit in memory and their regions
   * are disjoint: the monitor lies in 0xFD00..0xFFFF, BASIC in
   * 0xA000..0xBFFF, and neither touches the stack page.
   */
  lemma RomImagesFit(syn: seq<Byte>, basic: seq<Byte>)
    ensures var s, b := ImageOf(SYN600, syn), ImageOf(OSIBASIC, basic);
      && SYN600.address + |s| <= MEMORY_SIZE
      && OSIBASIC.address + |b| <= SYN600.address
      && 0x200 <= OSIBASIC.address
  {
  }

  /**
   * The memory after both images are installed over `mem`; the two fetches
   * may complete in either order (see `LoadOrderIrrelevant`).
   */
  function Loaded(mem: seq<Byte>, syn: seq<Byte>, basic: seq<Byte>): (r: seq<Byte>)
    requires |mem| == MEMORY_SIZE
    ensures |r| == MEMORY_SIZE
  {
    Installed(Installed(mem, ImageOf(SYN600, syn), SYN600.address), ImageOf(OSIBASIC, basic), OSIBASIC.address)
  }

  /** Installing BASIC first and the monitor second gives the same memory. */
  lemma LoadOrderIrrelevant(mem: seq<Byte>, syn: seq<Byte>, basic: seq<Byte>)
    requires |mem| == MEMORY_SIZE
    ensures Loaded(mem, syn, basic) ==
      Installed(Installed(mem, ImageOf(OSIBASIC, basic), OSIBASIC.address), ImageOf(SYN600, syn), SYN600.address)
  {
    RomImagesFit(syn, basic);
    InstallsCommute(mem, ImageOf(SYN600, syn), SYN600.address, ImageOf(OSIBASIC, basic), OSIBASIC.address);
  }

  /** `Math.max(1, TICK_MS - elapsed)`: the wait before the next slice. */
  function NextDelay(elapsed: int): (delay: int)
    ensures delay >= 1 && delay >= TICK_MS - elapsed
    ensures delay == 1 || delay == TICK_MS - elapsed
  {
    if TICK_MS - elapsed > 1 then TICK_MS - elapsed else 1
  }

  /**
   * The cycle count after the steps of one slice: each step that does not
   * halt charges 7 cycles, so a slice started on a running CPU runs at most
   * 1429 steps before reaching the 10000-cycle budget.
   */
  lemma {:induction false} StepsCharge(m: Machine, n: nat)
    requires WellFormed(m)
    requires !Run(m, n).regs.halted
    ensures Run(m, n).regs.cycles == m.regs.cycles + BRK_CYCLES * n
    decreases n
  {
    if n > 0 {
      RunOneMore(m, n - 1);
      StepOutcomes(Run(m, n - 1));
      StepsCharge(m, n - 1);
    }
  }

  /**
   * One more step of a slice: the state `n + 1` steps reach is the next
   * step's, and it either halted or has been charged 7 cycles per step.
   */
  lemma SliceProgress(m: Machine, n: nat)
    requires WellFormed(m)
    ensures Run(m, n + 1) == StepMachine(Run(m, n))
    ensures Run(m, n + 1).regs.halted ==> Run(m, n + 1).regs.cycles == Run(m, n).regs.cycles
    ensures !Run(m, n + 1).regs.halted ==> Run(m, n + 1).regs.cycles == m.regs.cycles + BRK_CYCLES * (n + 1)
  {
    RunOneMore(m, n);
    StepOutcomes(Run(m, n));
    if !Run(m, n + 1).regs.halted {
      StepsCharge(m, n + 1);
    }
  }

  class Emulator {
    const memory: Memory
    const cpu: CPU

    ghost predicate Valid()
      reads this, cpu
    {
      cpu.memory == memory && cpu.Valid()
    }

    /** A zeroed memory and a CPU reset over it. */
    constructor ()
      ensures Valid() && fresh(memory) && fresh(memory.cells) && fresh(cpu)
      ensures forall a :: 0 <= a < MEMORY_SIZE ==> memory.cells[a] == 0
      ensures cpu.Regs() == ResetRegisters(memory.cells[..])
    {
      var m := new Memory();
      memory := m;
      cpu := new CPU(m);
    }

    /**
     * `_loadROM` with the fetched file `file`: installs its slice at the
     * image's address. It fails, installing nothing, when the slice does not
     * fit.
     */
    method LoadRom(rom: RomImage, file: seq<Byte>) returns (ok: bool)
      requires Valid()
      modifies memory.cells
      ensures Valid()
      ensures ok <==> rom.address + |ImageOf(rom, file)| <= MEMORY_SIZE
      ensures ok ==> memory.cells[..] == Installed(old(memory.cells[..]), ImageOf(rom, file), rom.address)
      ensures !ok ==> memory.cells[..] == old(memory.cells[..])
    {
      var image := Slice(file, rom.romOffset, rom.length);
      ok := memory.InitializeRegion(image, rom.address);
    }

    /**
     * `load()`: installs both ROM images, resets the CPU over the loaded
     * memory and runs the first slice, `elapsed` ms long.
     */
    method Load(syn: seq<Byte>, basic: seq<Byte>, elapsed: int) returns (next: Schedule, ghost steps: nat)
      requires Valid()
      modifies cpu, memory.cells
      ensures Valid()
      ensures var loaded := Loaded(old(memory.cells[..]), syn, basic);
        cpu.State() == Run(Machine(ResetRegisters(loaded), loaded), steps)
      ensures 1 <= steps <= 1429
      ensures cpu.halted || cpu.cycles >= CLOCKS_PER_TICK
      ensures SameOutsideStack(Loaded(old(memory.cells[..]), syn, basic), memory.cells[..])
      ensures next == (if cpu.halted then Stop else After(NextDelay(elapsed)))
    {
      RomImagesFit(syn, basic);
      var okSyn := LoadRom(SYN600, syn);
      var okBasic := LoadRom(OSIBASIC, basic);
      cpu.Reset();
      next, steps := Timeslice(elapsed);
    }

    /**
     * `_timeslice`: steps the CPU at least once, and on until it halts or
     * has spent the slice's 10000 cycles. A halted CPU schedules nothing;
     * otherwise the next slice follows after `NextDelay(elapsed)` ms.
     */
    method Timeslice(elapsed: int) returns (next: Schedule, ghost steps: nat)
      requires Valid()
      modifies cpu, memory.cells
      ensures Valid()
      ensures 1 <= steps && cpu.State() == Run(old(cpu.State()), steps)
      ensures cpu.halted || cpu.cycles >= old(cpu.cycles) + CLOCKS_PER_TICK
      ensures !old(cpu.halted) ==> steps <= 1429
      ensures SameOutsideStack(old(memory.cells[..]), memory.cells[..])
      ensures next == (if cpu.halted then Stop else After(NextDelay(elapsed)))
    {
      ghost var start := cpu.State();
      var startCycles := cpu.Cycles();
      var cycleTarget := startCycles + CLOCKS_PER_TICK;

      SliceProgress(start, 0);
      cpu.Step();
      steps := 1;

      // The guard reads the fields behind `isHalted()` and `cycles()`.
      while !cpu.halted && cpu.cycles < cycleTarget
        invariant Valid()
        invariant 1 <= steps && cpu.State() == Run(start, steps)
        invariant !start.regs.halted && !cpu.halted ==> cpu.cycles == startCycles + BRK_CYCLES * steps
        invariant !start.regs.halted ==> steps <= 1429
        decreases if cpu.cycles < cycleTarget then cycleTarget - cpu.cycles else 0, if cpu.halted then 0 else 1
      {
        SliceProgress(start, steps);
        cpu.Step();
        steps := steps + 1;
      }
      RunWritesOnlyStack(start, steps);

      var halted := cpu.IsHalted();
      if halted {
        next := Stop;
        return;
      }
      next := After(NextDelay(elapsed));
    }
  }
}
