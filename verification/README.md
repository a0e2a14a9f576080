# pymu execution core in Dafny

This project models the execution core of pymu, a cycle-stepped 6502-style
emulator. The core has four parts:

- **Memory** (`memory.dfy`, module `Memory`): a 64K byte address space.
  Reads mask the address to 16 bits. Words are little-endian. Bus writes at or
  above 0x8000 are silently dropped. The OS image is copied to 0xC000 without
  any write protection. The ROM loader's length guard is a pure check.
- **Flags** (`flags.dfy`, module `Flags`): zero and negative are derived from a
  value. Interrupt-disable and decimal are set directly by instructions.
- **Processor** (`processor.dfy`, module `Processor`): the registers, the
  256-entry dispatch table and the instruction stream. In the source the
  stream is a Python generator, and each `yield` ends one clock cycle. Here
  the point where the generator is suspended is an explicit `Phase`:
  - `Ready`: the next cycle fetches an opcode.
  - `Decoded(op)`: the opcode was fetched and PC advanced.
  - `LdaOperand(v)`, `StaLow(lo)`, `StaHigh(lo, hi)`: an operand byte was
    read, but PC is not yet past it.
  - `Failed(op)`: the generator raised and is finished.

  `Step` advances one cycle and `Run` advances `n` cycles. Each value a
  generator had already read from memory travels inside its phase.
- **Timing** (`timing.dfy`, module `Timing`): lemmas over several cycles. They
  cover cycle counts per instruction, frame conditions, the stability of
  failure, and invariants of every run.
- **Clock** (`clock.dfy`, module `Clocking`): each tick steps every registered
  device once, in order, against one shared memory. A step that raises ends
  the tick. A kind of device is a `Kind`: its one-cycle step and its
  "has raised" test. The processor's instruction stream is `CpuKind`. The
  reference semantics is a schedule of device indices.

Representation choices:

- A byte is an `int` in 0..255.
- Memory is a `seq` of exactly 65536 bytes.
- PC is a `nat`. The source increments it with a plain `+= 1` and never masks
  it; only the addresses it is read through are masked.
- Dafny's `%` is Euclidean, so `offset % 0x10000` agrees with Python's
  `offset & 0xffff` for negative offsets too.

Notes on the code's behaviour:

- LDA #imm takes 3 cycles in this code, one more than on a real 6502.
  `_read_pc` yields once before advancing PC, and `_lda_imm` adds a final
  `yield`. As a result, the program LDA #$42 / STA $0000 needs 7 ticks rather
  than the 6 of a real 6502 (`Timing.LoadThenStore`).
- The unknown-opcode error carries only the opcode, not the PC. The PC is
  still observable in the failed state.
- `load_os` does not check the image length. It copies byte by byte, so an
  image longer than 16K writes 0xC000..0xFFFF and then fails with an index
  error. `Memory.LoadOutcome.complete` models that failure. Only `load_rom`
  insists on exactly 16K.

## Model

| member | source | states |
|---|---|---|
| Memory.ReadByteMasks | pymu.py:25-26 | a read is total, uses only the low 16 bits of the address (periodic in 64K), and is the plain array byte for addresses 0..0xFFFF |
| Memory.ReadWord | pymu.py:22-23 | the word is below 0x10000, its low byte is the byte at the address and its high byte is the byte at address+1 (little-endian) |
| Memory.ReadWordWrapsAtTop | pymu.py:22-26 | the word at 0xFFFF takes its high byte from address 0x0000 |
| Memory.WriteByte | pymu.py:28-30 | below 0x8000 the byte is stored; at or above 0x8000 memory is entirely unchanged; every other address is untouched |
| Memory.WriteThenRead | pymu.py:25-30 | reading back a RAM write gives the value; a protected write changes no read; a read at any other masked address is unaffected |
| Memory.LoadOsFrom | pymu.py:32-34 | the copy loop from index i: bytes i.. land at 0xC000+i.., addresses before 0xC000+i and past the image are untouched, and it completes iff the image is at most 16K |
| Memory.LoadOs | pymu.py:32-34 | byte 0xC000+j holds image byte j for every j that fits, regardless of write protection; all other bytes are unchanged; it completes iff the image is at most 16K |
| Memory.CheckRom | pymu.py:14-16 | an image is accepted iff its length is exactly 0x4000, unchanged; otherwise the rejection carries the actual size |
| Memory.AcceptedRomFillsTop | pymu.py:32-34 | loading an accepted ROM completes, fills 0xC000..0xFFFF with the image and leaves 0x0000..0xBFFF unchanged |
| Flags.SetZN | pymu.py:43-45 | zero iff the value is 0; negative iff bit 7 is set (value >= 0x80); interrupt-disable and decimal unchanged |
| Flags.SetZNDerived | pymu.py:43-45 | the new zero/negative bits depend only on the value, never on their previous state, and are never both set |
| Processor.SetZNPass | pymu.py:83-85 | hands back the byte unchanged with zero/negative describing it and the other two flags kept |
| Processor.New | pymu.py:58-67 | PC is the little-endian word at 0xFFFC/0xFFFD, A = X = Y = S = 0, all four flags clear, about to fetch |
| Processor.Step | pymu.py:72-113 | one cycle never changes X, Y, S or any byte at or above 0x8000, moves PC by 0 or 1, fails exactly when dispatching an unimplemented opcode or when already failed, and leaves a failed stream as it is |
| Timing.DispatchTable | pymu.py:63-67 | the table maps 0xA9, 0x8D, 0x78 and 0xD8 to their handlers and every other opcode to the unknown-opcode handler |
| Timing.LdaImmTiming | pymu.py:87-91 | from an opcode fetch of 0xA9, the next fetch comes after exactly 3 cycles with PC+2, A = the operand byte, zero/negative derived from it, the other flags, X, Y, S and memory unchanged |
| Timing.StaAbsTiming | pymu.py:93-97 | 0x8D takes exactly 4 cycles, advances PC by 3, performs the bus write of A at the little-endian operand address (no effect at or above 0x8000), and changes no register or flag |
| Timing.SeiTiming | pymu.py:99-101 | 0x78 takes exactly 2 cycles, advances PC by 1, sets interrupt-disable and changes nothing else |
| Timing.CldTiming | pymu.py:103-105 | 0xD8 takes exactly 2 cycles, advances PC by 1, clears decimal and changes nothing else |
| Timing.InstructionCycles | pymu.py:107-113 | every implemented opcode returns to an opcode fetch after exactly its cycle count and at no earlier cycle |
| Timing.UnknownOpcodeFails | pymu.py:69-70 | any other opcode fails on the cycle after its fetch, with that opcode, PC one past the fetch address and nothing else changed |
| Timing.FailedAbsorbs | pymu.py:107-113 | a failed stream stays exactly as it is for any number of further cycles |
| Timing.FailureIsFinal | pymu.py:107-113 | once a run has failed it is failed at every later cycle |
| Timing.RunInvariants | pymu.py:51-113 | no number of cycles changes X, Y, S or any byte at or above 0x8000 |
| Timing.PcMonotone | pymu.py:72-113 | PC never decreases and grows by at most one per cycle |
| Timing.LoadThenStore | pymu.py:87-97 | LDA #$42 then STA $0000: after 7 cycles A = 0x42, zero and negative clear, address 0 holds 0x42, PC five bytes on |
| Timing.ResetVectorFromImage | pymu.py:58-61 | booting from an accepted ROM starts at the word formed by image bytes 0x3FFC (low) and 0x3FFD (high) |
| Clocking.TickFrom | pymu.py:122-124 | a tick that completes leaves no device halted; one that raises names a halted device and leaves the devices after it untouched |
| Clocking.CompletedTickFollowsSchedule | pymu.py:122-124 | a completed tick equals stepping every device once in registration order against the shared memory |
| Clocking.RaisedTickFollowsSchedule | pymu.py:122-124 | a tick that raises at device d equals stepping devices 0..d once each, in order, and no further |
| Clocking.TicksFollowRounds | pymu.py:122-124 | n completed ticks equal n rounds of the registration-order schedule |
| Clocking.EachDeviceSteppedNTimes | pymu.py:122-124 | in n rounds every device is stepped exactly n times |
| Clocking.SingleCpuTick | pymu.py:119-124 | with the processor as the only device, one tick is one processor cycle, and it raises at device 0 exactly when that cycle leaves the processor failed |
| Clocking.SingleCpuTicks | pymu.py:119-124 | with the processor as the only device, n ticks are the processor's n cycles: they complete with the clock holding the run's processor and memory, or, exactly when the processor has failed by then, raise at device 0 with that same clock |

## Left out

- File reading and path resolution in `load_rom` are left out because they are I/O. Only its length guard is kept, as `Memory.CheckRom`.
- Logging, logging configuration and `main`'s fixed 10000-tick driver are left out because they are I/O and glue. `Clocking.Ticks` models any fixed number of ticks, and `Timing.ResetVectorFromImage` models loading an accepted ROM and building the processor. No member chains load, construction and ticking together the way `main` does.
- The Python generator and `yield from` machinery is not modelled as coroutines. `_read_pc` and `_read_pc_addr` appear as the `LdaOperand`, `StaLow` and `StaHigh` phases of `Processor.Step`. Their combined effect is stated by `Timing.LdaImmTiming` and `Timing.StaAbsTiming`.
- Exception types and message texts are left out. An unknown opcode is the phase `Failed(op)`. A tick that raises is `Clocking.Raised`, with the index of the device that raised.
- `_ram` is a class attribute, so all `Memory` objects share it. The model has one memory, shared by every device the clock drives.
- The clock accepts any `Kind` of device, but a device is a pure one-cycle step over the shared memory rather than an arbitrary Python iterator. Only `CpuKind` is instantiated, because the source only ever registers `cpu.run()`.
- Negative write addresses are out of the callers' domain, so `write_byte` takes a `nat` address. So are values outside 0..255, so bytes are 0..255. `Flags.negative`, stored as the int 0 or 0x80, is a bool.
