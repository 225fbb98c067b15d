# webvosi emulator core in Dafny

This project models the core of webvosi, a browser emulator of an Ohio
Scientific machine built around a 6502-style CPU. It has five modules:

- `Bus` (`memory.dfy`) is the 64 KiB memory. A fresh memory reads 0 everywhere. It has byte reads and writes, and a bulk copy that installs ROM images.
- `Flags` and `Processor` (`cpu.dfy`) are the CPU interpreter. It holds a register file, a cycle counter and a halted flag. It also holds a 256-entry dispatch table in which only opcode 0x00 (BRK) has a handler; every other opcode halts the CPU.
  - BRK pushes the return address and the flags with B set on the stack page and sets DI. It then jumps through the vector at 0xFFFE and charges 7 cycles.
  - When `sp` is at most 2, BRK halts instead, because three pushes would take `sp` below 0.
  - The class `CPU` updates its fields and the memory in place. Each of its methods is proved to follow a pure specification on a `Machine` value (registers plus memory contents), and the properties of the interpreter are proved about that specification.
- `KeyboardMatrix` (`keyboard.dfy`) is the keyboard device. The machine writes a byte to select rows of an 8-row key matrix and reads back the OR of the selected rows. Key events change two things: the set of held modifier keys (caps lock, control) and the one held ordinary key. After each event the row bitmap is rebuilt from the keymap.
  - Held modifiers are kept in press order, as the source's `Set` is.
  - The rebuilt bitmap is proved to depend only on which keys are held, not on their order.
  - The keymap lookups in the rebuild always succeed, because the class invariant keeps only keymap names in the held state.
- `Display` (`screen.dfy`) maps the first 0x800 bytes of video memory to 32 lines of 64 characters. Bit 7 is ignored. Codes 0 to 32 show as a no-break space, and codes 33 to 127 show as themselves.
- `Scheduler` (`emulator.dfy`) is the driver.
  - It installs the monitor ROM (file bytes 0x100 up to 0x400, at 0xFD00) and the BASIC ROM (file bytes 0 up to 0x2000, at 0xA000), then resets the CPU.
  - It then runs the CPU in slices of `CLOCKS_PER_TICK` = 10000 cycles (10 ms at 1 MHz). A slice steps the CPU at least once, then goes on until the CPU halts or the budget is spent.
  - A halted CPU schedules no further slice. Otherwise the next slice follows after `max(1, 10 - elapsed)` ms.

Numbers follow the source's typed arrays and numbers:
- Memory cells, `a`, `x`, `y` and `sp` are integers in 0..255.
- `ip` is an integer in 0..0xFFFF.
- `flags` is a `bv8`, so its bits can be reasoned about.
- The source's `& 0xFFFF`, `>> 8`, `& 0xFF`, `(high << 8) | low` and `sp | 0x100` are written as remainder, quotient and sum. The lemmas `WordIsShiftOr` and `StackAddressIsOr` prove that two of these forms agree with the bitwise ones.

Initially caps lock is recorded as held, but the rows stay clear until the first mapped key event. `InitialRowsLagCapsLock` states this difference.

## Model

| member | source | states |
|---|---|---|
| Bus.Installed | src/memory.js:10-12 | installing `data` at `address` keeps the size, puts `data[i]` at `address + i` and leaves every other cell as it was |
| Bus.InstallsCommute | src/Emulator.js:20-23 | installs into disjoint regions commute, so the order in which the two ROM fetches complete does not matter |
| Bus.Memory.constructor | src/memory.js:6-8 | a new memory has 0x10000 cells, all 0 |
| Bus.Memory.InitializeRegion | src/memory.js:10-12 | succeeds exactly when the data fits at the address, and then installs it; otherwise memory is unchanged (the typed-array `set` throws) |
| Bus.Memory.ReadByte | src/memory.js:14-16 | returns the cell at the address |
| Bus.Memory.WriteByte | src/memory.js:18-20 | the cell at the address becomes the value modulo 256 (the value itself for a byte); no other cell changes |
| Processor.BuildDispatch | src/cpu.js:37-42 | the table has 256 entries, BRK at 0x00 and the invalid-instruction handler at every other opcode |
| Processor.Inc16 | src/cpu.js:108-110 | the 16-bit increment of `ip`; its partner `Inc16Wraps` states that it adds one below 0xFFFF and wraps 0xFFFF to 0 |
| Processor.Inc16Wraps | src/cpu.js:108-110 | the 16-bit increment adds one below 0xFFFF, wraps 0xFFFF to 0 and never returns its argument |
| Processor.WordIsShiftOr | src/cpu.js:102-106 | the source's shift-left-by-8-and-or of the high and low byte equals the little-endian word `high * 256 + low` |
| Processor.WordOfBytes | src/cpu.js:85-87 | splitting a word into its high and low byte and joining them gives the word back |
| Processor.BytesOfWord | src/cpu.js:102-106 | joining two bytes into a word and splitting it gives both bytes back |
| Processor.StackAddressIsOr | src/cpu.js:85-89 | or-ing 0x100 into a byte `sp` gives the stack-page address `0x100 + sp` |
| Processor.WordAt | src/cpu.js:102-106 | the word read at an address has the byte there as its low byte and the next byte as its high byte |
| Processor.ResetRegisters | src/cpu.js:47-56 | reset sets sp 0xFD, A = X = Y = 0, flags 0x24 (ALWAYS and DI), cycles 0, running, and ip from the bytes at 0xFFFC (low) and 0xFFFD (high) |
| Processor.ExecBrk | src/cpu.js:76-96 | BRK on a machine already past the opcode keeps the machine well formed; its partners `BrkPushes`, `BrkRegisters` and `BrkHaltsOnFullStack` state the pushed bytes, the new registers and the halt when `sp` is at most 2 |
| Processor.ExecInvalid | src/cpu.js:98-100 | an invalid opcode sets halted and leaves every other register and all of memory as they were |
| Processor.StepMachine | src/cpu.js:58-66 | one step keeps the machine well formed; its partners `StepOutcomes`, `InvalidOpcodeHalts`, `BrkStep`, `BrkStackExhausted` and `StepWritesOnlyStack` state the halted, invalid-opcode and BRK cases and that only the stack page is written |
| Processor.BrkPushes | src/cpu.js:84-90 | BRK with sp above 2 writes the return address high byte at `0x100 + sp` and low byte below it, so the pair reads back as `ip + 1`; then flags with B at `0x100 + sp - 2`; no other cell changes |
| Processor.BrkRegisters | src/cpu.js:86-95 | BRK with sp above 2 lowers sp by 3, sets DI and keeps every other flag bit (B is not set in the live flags), loads ip from the vector at 0xFFFE, adds 7 cycles and keeps A, X, Y |
| Processor.BrkHaltsOnFullStack | src/cpu.js:80-83 | BRK with sp at most 2 only halts: no memory write, and sp, flags, ip and cycles are unchanged |
| Processor.StepOutcomes | src/cpu.js:58-66 | a step on a halted CPU changes nothing; a step that leaves the CPU running charged 7 cycles; a step that halts charged none |
| Processor.InvalidOpcodeHalts | src/cpu.js:58-66 | any opcode other than 0x00 halts with ip advanced past it and no other register, cycle count or cell changed |
| Processor.BrkStep | src/cpu.js:58-96 | a step over a BRK with sp above 2 pushes `ip + 2` (the byte after BRK's padding byte) and the flags with B, lowers sp by 3, jumps to the word at 0xFFFE, charges 7 cycles and keeps running |
| Processor.BrkStackExhausted | src/cpu.js:80-83 | a step over a BRK with sp at most 2 advances ip and halts, with nothing else changed |
| Processor.BrkInterruptExample | test/testCPUInterrupts.js:7-21 | from sp 0xFF, ip 0x1000 and flags C, one BRK step charges 7 cycles, leaves flags C and DI, sp 0xFC, and 0x10, 0x02, C and B at 0x1FF, 0x1FE, 0x1FD |
| Processor.StepWritesOnlyStack | src/cpu.js:85-89 | a step changes no cell outside the stack page 0x100..0x1FF |
| Processor.Run | src/cpu.js:58-66 | `n` repeated steps keep the machine well formed; its partners `RunOneMore`, `HaltedIsTerminal`, `CyclesAccount` and `RunWritesOnlyStack` state how runs compose, that halting is final, how cycles grow and that only the stack page is written |
| Processor.RunOneMore | src/cpu.js:58-66 | `n + 1` steps are `n` steps followed by one more |
| Processor.HaltedIsTerminal | src/cpu.js:58-61 | once halted, any number of steps leaves the machine unchanged |
| Processor.CyclesAccount | src/cpu.js:95 | over `n` steps the cycle counter never decreases, grows by a multiple of 7 and by at most `7 * n` |
| Processor.RunWritesOnlyStack | src/cpu.js:85-89 | any number of steps leave the cells outside the stack page, ROM images and vectors included, unchanged |
| Processor.CPU.constructor | src/cpu.js:34-45 | the CPU has the BRK/invalid dispatch table over the given memory and its registers are those of a reset |
| Processor.CPU.Reset | src/cpu.js:47-56 | the registers become those of `ResetRegisters` over the current memory; memory is untouched |
| Processor.CPU.Step | src/cpu.js:58-66 | the new registers and memory are `StepMachine` of the old ones |
| Processor.CPU.IsHalted | src/cpu.js:68-70 | returns the halted flag |
| Processor.CPU.Cycles | src/cpu.js:72-74 | returns the cycle counter |
| Processor.CPU.Brk | src/cpu.js:76-96 | the new registers and memory are `ExecBrk` of the old ones |
| Processor.CPU.InvalidInstruction | src/cpu.js:98-100 | sets halted and changes no other register |
| Processor.CPU.ReadWord | src/cpu.js:102-106 | returns the little-endian word at the address |
| KeyboardMatrix.Selected | src/Keyboard.js:138-148 | the OR of the first `n` rows whose mask bit is set; its partners `SelectedBits`, `NothingSelected` and `SelectionMonotone` state which bits it holds |
| KeyboardMatrix.SelectedBits | src/Keyboard.js:138-148 | a bit is set in the read-back byte exactly when some row whose mask bit is set has that bit |
| KeyboardMatrix.SelectedRowShows | src/Keyboard.js:141-145 | every bit of a row whose mask bit is set shows in the read-back byte |
| KeyboardMatrix.SelectedRowOf | src/Keyboard.js:141-145 | every bit of the read-back byte comes from a row whose mask bit is set |
| KeyboardMatrix.NothingSelected | src/Keyboard.js:138-148 | with row mask 0 the keyboard reads 0 |
| KeyboardMatrix.SelectionMonotone | src/Keyboard.js:138-148 | a row mask that is a bit-superset of another reads back a bit-superset |
| KeyboardMatrix.Light | src/Keyboard.js:182 | or-ing a mask into one row keeps 8 rows; its partner `LightBits` states that exactly that row gains exactly the mask's bits |
| KeyboardMatrix.MetaRows | src/Keyboard.js:176-183 | the rows lit by the held modifiers, starting from clear rows, are 8 rows; its partner `MetaRowsBits` states which bits are set |
| KeyboardMatrix.MetaRowsBits | src/Keyboard.js:178-183 | a bit of a row is lit by the modifiers exactly when a held modifier sits in that row with that bit |
| KeyboardMatrix.RowsFor | src/Keyboard.js:175-196 | the rebuilt rows are 8 rows; its partners `RowsForBits` and `MetaOrderIrrelevant` state which bits are set and that the order of the modifiers does not matter |
| KeyboardMatrix.RowsForBits | src/Keyboard.js:175-196 | after a rebuild, a bit of a row is set exactly when a held modifier, the held key, or (for a key that needs shift) left shift at row 0 bit 0x04 puts it there |
| KeyboardMatrix.MetaOrderIrrelevant | src/Keyboard.js:179-183 | the rebuilt rows depend only on which modifiers are held, not on the order they were pressed |
| KeyboardMatrix.Added | src/Keyboard.js:160 | adding to the held set keeps it duplicate-free and makes it hold exactly the old names and the new one |
| KeyboardMatrix.Removed | src/Keyboard.js:166 | deleting from the held set leaves exactly the old names other than the deleted one |
| KeyboardMatrix.RemovedDistinct | src/Keyboard.js:166 | deleting keeps the held set duplicate-free |
| KeyboardMatrix.CapsLockIsMeta | src/Keyboard.js:14 | caps lock is in the keymap as a modifier |
| KeyboardMatrix.InitialRowsLagCapsLock | src/Keyboard.js:123-131 | the rebuild of the initial held set (caps lock alone) lights row 0 bit 0x01, so it differs from the clear rows the keyboard starts with |
| KeyboardMatrix.Keyboard.constructor | src/Keyboard.js:123-132 | caps lock is held, no ordinary key is held, the rows are clear and the row mask is 0 |
| KeyboardMatrix.Keyboard.WriteByte | src/Keyboard.js:134-136 | only the row mask changes, to the written byte |
| KeyboardMatrix.Keyboard.ReadByte | src/Keyboard.js:138-148 | returns the OR of the rows selected by the row mask |
| KeyboardMatrix.Keyboard.HandleKeyboardEvent | src/Keyboard.js:150-173 | an unmapped key changes nothing. For a mapped key: a modifier joins or leaves the held set; an ordinary key going down replaces the held key; an ordinary key going up clears the held key only if it is the held one. The rows are then the rebuild of the new held state |
| KeyboardMatrix.Keyboard.RebuildRows | src/Keyboard.js:175-199 | the rows become `RowsFor` the held modifiers and key; the held state and row mask are unchanged |
| Display.ByteAt | src/Screen.js:17 | the byte at an index of the video memory, 0 past its end (`undefined & 0x7F`); `RenderReadsOnlyShownBytes` states that only the first 0x800 are read |
| Display.CharOf | src/Screen.js:17-25 | the shown character is never below code 32 and never an ordinary space; it is a no-break space exactly when the masked code is at most 32, and otherwise has the masked code |
| Display.CharOfLowBits | src/Screen.js:17 | bytes with the same low seven bits show the same character |
| Display.CharIgnoresBitSeven | src/Screen.js:17 | a byte and the same byte with bit 7 flipped show the same character |
| Display.Line | src/Screen.js:15-26 | one line of the screen; `RenderShape` states it has 64 characters, character `j` of line `i` showing byte `i * 64 + j` |
| Display.Render | src/Screen.js:12-33 | the text of the screen; its partners `RenderShape`, `RenderReadsOnlyShownBytes` and `RenderIgnoresBitSeven` state its shape, which bytes it reads and that bit 7 is ignored |
| Display.RenderShape | src/Screen.js:14-29 | the text is 32 lines of 64 characters, and character `j` of line `i` shows byte `i * 64 + j` |
| Display.RenderReadsOnlyShownBytes | src/Screen.js:17 | video memories that agree on their first 0x800 bytes show the same text |
| Display.RenderIgnoresBitSeven | src/Screen.js:17 | video memories that differ only in bit 7 of their bytes show the same text |
| Display.Lines | src/Screen.js:12-33 | the lines built character by character are `Render` of the video memory |
| Scheduler.Slice | src/Emulator.js:41 | `Uint8Array.slice` with both bounds clamped to the file: the result is the file's bytes from `min(start, len)` up to `min(end, len)`, and empty when `end < start` |
| Scheduler.ImageOf | src/Emulator.js:41 | the image is the file's bytes from `romOffset` up to `length` when the file reaches `length`, and empty when the file ends at or before `romOffset` |
| Scheduler.RomImagesFit | src/Emulator.js:21-22 | whatever the files hold, the monitor image ends by 0x10000, the BASIC image ends before 0xFD00, and neither reaches the stack page |
| Scheduler.Loaded | src/Emulator.js:20-23 | both images installed over the memory keep its size; its partner `LoadOrderIrrelevant` states that the two installs may happen in either order |
| Scheduler.LoadOrderIrrelevant | src/Emulator.js:20-23 | installing BASIC before the monitor gives the same memory as the other order |
| Scheduler.NextDelay | src/Emulator.js:65 | the delay to the next slice is at least 1 ms and at least `10 - elapsed`, and is one of the two |
| Scheduler.StepsCharge | src/Emulator.js:51-53 | if the CPU is still running after `n` steps, exactly `7 * n` cycles were charged |
| Scheduler.SliceProgress | src/Emulator.js:51-53 | one more step of a slice either halts with no cycles charged or keeps the count at 7 per step |
| Scheduler.Emulator.constructor | src/Emulator.js:14-17 | a zeroed memory and a CPU reset over it |
| Scheduler.Emulator.LoadRom | src/Emulator.js:29-44 | installs the ROM file's slice at the image's address when it fits; otherwise nothing changes |
| Scheduler.Emulator.Load | src/Emulator.js:19-27 | the CPU runs from a reset taken after both images are installed; the first slice runs 1 to 1429 steps and ends halted or with at least 10000 cycles; the installed memory is intact outside the stack page; the schedule is nothing when halted and otherwise `NextDelay(elapsed)` |
| Scheduler.Emulator.Timeslice | src/Emulator.js:46-70 | runs at least one step and ends halted or with at least 10000 more cycles; a slice started running takes at most 1429 steps; only the stack page is written; a halted CPU schedules nothing, otherwise the next slice comes after `NextDelay(elapsed)` |

## Left out

- Opcodes other than BRK. Their semantics appear only in the repository's tests, and src/cpu.js sends all of them to the invalid-instruction handler, which the model follows.
- Bus.Memory.ReadByte: addresses are limited to 0..0xFFFF by the `Address` type. An out-of-range typed-array read yields `undefined`, which is not represented; no caller in the core reads out of range.
- Bus.Memory.WriteByte: addresses are limited to 0..0xFFFF by the `Address` type. An out-of-range typed-array write is silently dropped, which is not represented.
- Processor.CPU.ReadWord: it requires an address below 0xFFFF. The source reads only the vectors at 0xFFFC and 0xFFFE.
- Processor.CPU: the registers `a`, `x`, `y` and `sp` hold bytes and `ip` holds a 16-bit address. The source's fields accept any number, but the interpreter itself only stores such values.
- KeyboardMatrix.Keyboard.WriteByte: the row mask is a byte. `readByte` tests only its low eight bits, so higher bits are not kept.
- DOM event wiring and logging in src/Keyboard.js: `addEventListener` and `console.log` are left out. A key event is the key name and a down/up flag.
- ROM fetching in src/Emulator.js: `fetch`, `arrayBuffer` and `console.log` are left out. The fetched files are parameters.
- Concurrency of `Promise.all` is modelled as one fixed install order, and `LoadOrderIrrelevant` proves the other order gives the same memory.
- Timing in src/Emulator.js: `performance.now` and `setTimeout` are left out. The elapsed time of a slice is an integer number of milliseconds passed in, and the timer request is the returned `Schedule`.
- src/Screen.js `render()` and the JSX wrapping of each line are left out; `Lines` returns the line texts.
- src/App.js and webpack.config.js are not part of this model.
