# GoBoy core in Dafny

This project models the core of GoBoy, an early-stage Game Boy emulator
written in Go. The model covers:

- the CPU register file and its register pairs;
- the carry flag and the stack push;
- the eleven instruction handlers that the opcode table installs;
- the fetch-decode-execute `Cycle`;
- the flat byte memory;
- the real-time-clock register block;
- the cartridge header decoder.

Go's `uint8` and `uint16` are the integer ranges `Byte` and `Word`.
Every wrap-around the Go code relies on is written out: `pc + 1` and
`sp - 1` wrap modulo 0x10000. The product `(value >> 8) * 0xFF` in
`PushStack` is at most 0xFE01 and never wraps; only its truncation by
`byte(...)` reduces it. Go's bit operations on bytes are written as
arithmetic on bit positions.

Every Go mutator is a pure function from one state to the next. A Go
index past the end of the memory slice panics. Here that panic is an
outcome: a handler returns `Done(cpu)` or `OutOfRange(address)`, and
`Cycle` returns `Continue`, `Halt` or `Panic`.

The `Cpu` module keeps the source's behaviour as written, defects
included. The `Corrected` module holds the evidently intended versions,
and lemmas that relate each pair (see "## Findings").

In several places the Go code differs from what a Game Boy does, or from
what the code's own other parts expect. The model follows the code:

- `HL` reads B and C, although `SetHL` writes H and L.
- `PushStack` stores `byte((value >> 8) * 0xFF)` at SP-2, the negated high byte, not the high byte.
- `RST_38H` pushes its own address. On the Game Boy, RST pushes the address of the next instruction.
- `RRCA` shifts the old carry into bit 7 and takes the new carry from the old bit 1. The Game Boy's RRCA rotates bit 0 into bit 7 and into the carry.
- `NewMemory` allocates 0xFFFF cells, so the 16-bit address 0xFFFF has no cell.
- The handler installed under 0xE0 stores A at 0xFF00 + C and is one byte long. On the Game Boy, 0xE0 is LDH (a8),A, which takes an immediate byte operand. The C form is opcode 0xE2.
- `PushStack` puts the low byte at SP-1 and the high byte at SP-2. The Game Boy's push does the reverse, so `StackTop` reads in the order this code writes, not in hardware order.
- `RLCA` and `RRCA` change only the carry bit. The Game Boy also clears the Zero, Subtract and Half-Carry flags.
- `Memory` is one flat slice. The Game Boy routes addresses to regions and switches banks.

The first five are recorded under "## Findings".

Files:

- `bits.dfy`: byte/word ranges, wrapping, joining and splitting words, bit tests.
- `memory.dfy`: `Memory` (memory/Memory.go).
- `rtc.dfy`: `Rtc` (memory/RTC.go).
- `cartridge.dfy`: `Cartridge` (memory/Cartridge.go).
- `cpu.dfy`: `Cpu` (internal/CPU.go).
- `corrected.dfy`: `Corrected`, the corrected handlers.

## Model

| member | source | states |
|---|---|---|
| Memory.NewMemory | memory/Memory.go:14-17 | a new memory has 0xFFFF cells, all zero |
| Memory.InRangeIffNotLast | memory/Memory.go:16 | with the allocated size, every bus address except 0xFFFF has a cell |
| Memory.GetByte | memory/Memory.go:39-41 | the byte read is the one the cell holds: storing it back leaves the memory unchanged |
| Memory.StoreByte | memory/Memory.go:43-45 | the stored cell holds the value; the size and every other cell are unchanged |
| Memory.StoreThenGet | memory/Memory.go:39-45 | a load after a store at the same address returns the stored byte |
| Memory.StoreThenGetOther | memory/Memory.go:39-45 | a store does not change a load at any other address |
| Memory.StoreSame | memory/Memory.go:39-45 | storing the byte a cell already holds leaves the memory equal to what it was |
| Memory.LoadRom | memory/Memory.go:35 | the first min(ROM length, memory size) cells take the ROM bytes; the cells past the ROM keep their contents; the size is unchanged |
| Rtc.IsHalted | memory/RTC.go:32-34 | the clock is halted iff `daysHigh` mod 0x80 >= 0x40, i.e. bit 6 is set |
| Rtc.HasOverflowed | memory/RTC.go:49-51 | the day counter has overflowed iff `daysHigh` >= 0x80, i.e. bit 7 is set |
| Rtc.TotalDays | memory/RTC.go:44-47 | the day count is in 0..511; its low eight bits are `daysLow`; it is 256 or more exactly when bit 0 of `daysHigh` is set |
| Rtc.NewRtc | memory/RTC.go:18-30 | a new clock is not halted, not overflowed and not latched; every counter byte, `daysHigh` included, is zero |
| Rtc.NewRtcRunning | memory/RTC.go:18-42 | resuming a new clock changes nothing; halting it sets `daysHigh` to exactly 0x40 |
| Rtc.SetHalt | memory/RTC.go:36-42 | afterwards the halt flag equals the argument; the bits of `daysHigh` below and above bit 6 and every other field are kept |
| Rtc.SetHaltKeepsDays | memory/RTC.go:36-51 | setting the halt flag changes neither the overflow flag nor the day count |
| Rtc.SetHaltIdempotent | memory/RTC.go:36-42 | setting the halt flag twice to one value equals setting it once |
| Rtc.SetHaltUndo | memory/RTC.go:36-42 | halting a running clock and then resuming it restores every register |
| Cartridge.RomSize | memory/Cartridge.go:49-55 | code n in 0..8 means 32 KiB times 2^n; every larger code means 0 |
| Cartridge.RamSize | memory/Cartridge.go:57-63 | code n in 1..4 means 2 KiB times 4^(n-1); code 0 and every code above 4 mean 0 |
| Cartridge.SizesBounded | memory/Cartridge.go:49-63 | no code announces more than 8 MiB of ROM or 128 KiB of RAM |
| Cartridge.ParseTitle | memory/Cartridge.go:43-47 | the title is exactly the 16 header bytes starting at 0x134 |
| Cartridge.LoadCartridge | memory/Cartridge.go:24-41 | an image is accepted iff it has at least 0x150 bytes; an accepted cartridge keeps the whole image and takes its title, MBC type and size codes from the header |
| Cartridge.LoadDependsOnlyOnHeader | memory/Cartridge.go:34-47 | two accepted images that agree on their first 0x150 bytes decode to the same title, MBC type, ROM size and RAM size |
| Cartridge.ZeroHeaderLoads | memory/Cartridge.go:30-40 | an all-zero 0x150-byte header is accepted as a 32 KiB ROM with MBC type 0 and no RAM |
| Cpu.NewCpu | internal/CPU.go:15-18 | a new CPU starts at PC 0x0100 with every other register zero, interrupts off, over the given memory |
| Cpu.AF | internal/CPU.go:20-22 | A is the high byte of AF and F the low byte |
| Cpu.SetAF | internal/CPU.go:24-27 | A and F take the high and low byte of the word; no other register changes |
| Cpu.BC | internal/CPU.go:29-31 | B is the high byte of BC and C the low byte |
| Cpu.SetBC | internal/CPU.go:33-36 | B and C take the high and low byte of the word; no other register changes |
| Cpu.DE | internal/CPU.go:38-40 | D is the high byte of DE and E the low byte |
| Cpu.SetDE | internal/CPU.go:42-45 | D and E take the high and low byte of the word; no other register changes |
| Cpu.PairRoundTrips | internal/CPU.go:20-45 | reading AF, BC or DE after writing it returns the word written; writing back the word read changes nothing |
| Cpu.HL | internal/CPU.go:47-49 | as written, HL is assembled from B and C |
| Cpu.SetHL | internal/CPU.go:51-54 | H and L take the high and low byte of the word; no other register changes |
| Cpu.HLReadsBC | internal/CPU.go:29-54 | HL always equals BC, and writing any word to HL does not change what HL reads |
| Cpu.HLRoundTripFails | internal/CPU.go:47-54 | after writing 0x1234 to HL on a fresh CPU, HL still reads 0 |
| Cpu.SetCarryFlag | internal/CPU.go:56-62 | the carry is set iff the argument is exactly 1; the other flag bits and all other registers are kept |
| Cpu.SetCarryFlagIdempotent | internal/CPU.go:56-62 | setting the carry twice equals setting it once; writing back the current carry changes nothing |
| Cpu.PushStack | internal/CPU.go:64-69 | the push panics at SP-1 or else at SP-2 when that cell is missing; otherwise SP drops by 2 (wrapping), SP-1 holds the low byte, SP-2 holds the negated high byte, and nothing else changes |
| Cpu.Immediate16 | internal/CPU.go:130-134 | the 16-bit operand is little-endian: low byte at PC+1, high byte at PC+2 |
| Cpu.Nop | internal/CPU.go:104-107 | only PC changes, and it moves by one |
| Cpu.Rlca | internal/CPU.go:109-115 | A is rotated left: bits 6-0 move up one and bit 7 enters bit 0 and the carry; other flags kept; PC moves by one |
| Cpu.Rrca | internal/CPU.go:117-126 | as written, A shifts right with the old carry entering bit 7, and the new carry is bit 1 of the old A; other flags kept; PC moves by one |
| Cpu.LdSpU16 | internal/CPU.go:128-137 | panics at the first operand byte outside memory; otherwise SP takes the little-endian operand and PC moves by three |
| Cpu.LdAU8 | internal/CPU.go:139-144 | panics iff the operand byte is outside memory; otherwise A takes it and PC moves by two |
| Cpu.LdDL | internal/CPU.go:146-150 | D takes L and PC moves by one; nothing else changes |
| Cpu.JpU16 | internal/CPU.go:152-160 | panics at the first operand byte outside memory; otherwise PC takes the little-endian operand and nothing else changes |
| Cpu.IoAddress | internal/CPU.go:164 | the address lies on page 0xFF and its low byte is C |
| Cpu.LdCA | internal/CPU.go:162-167 | panics iff 0xFF00+C is outside memory; otherwise A is stored there, PC moves by one, and nothing else changes |
| Cpu.LdU16A | internal/CPU.go:169-178 | panics at the first operand byte, or else at the target address, that is outside memory; otherwise A is stored at the operand address and PC moves by three |
| Cpu.Di | internal/CPU.go:180-184 | interrupts are disabled and PC moves by one |
| Cpu.Rst38h | internal/CPU.go:186-190 | a push of the current PC (panicking like `PushStack`), followed by PC = 0x0038 |
| Cpu.Decode | internal/CPU.go:90-102 | an opcode has a handler iff it is one of the eleven installed bytes |
| Cpu.Encode | internal/CPU.go:90-102 | every instruction is installed under one of those bytes |
| Cpu.DecodeEncode | internal/CPU.go:90-102 | decoding inverts the table in both directions |
| Cpu.Execute | internal/CPU.go:73-77 | running a handler never resizes memory; a handler panics only at an address outside memory; only 0xE0, 0xEA and 0xFF write memory |
| Cpu.SequentialAdvance | internal/CPU.go:104-184 | every handler except JP and RST that finishes leaves PC just past its instruction bytes |
| Cpu.Cycle | internal/CPU.go:71-83 | fetching outside memory panics; an opcode without a handler halts with no change; otherwise the handler's outcome is the step's outcome |
| Cpu.ExecutePreservesFlags | internal/CPU.go:104-190 | no handler sets any of the low four flag bits |
| Cpu.FirstStepFromNop | internal/CPU.go:71-83 | a fresh CPU over a memory with 0x00 at 0x0100 steps to PC 0x0101 |
| Cpu.LdCAPanicsOnLastAddress | memory/Memory.go:16 | with the allocated memory size, 0xE0 panics exactly when C is 0xFF |
| Corrected.HLFixed | internal/CPU.go:47-49 | HL assembled from H and L |
| Corrected.HLFixedRoundTrip | internal/CPU.go:47-54 | the corrected HL and SetHL round-trip in both directions |
| Corrected.HLRoundTripOnlyWhenBC | internal/CPU.go:47-54 | as written, reading HL after writing a word returns it iff BC already held that word |
| Corrected.StackTop | internal/CPU.go:64-69 | the word at SP, read with the high byte at SP and the low byte at SP+1 |
| Corrected.PushStackFixed | internal/CPU.go:64-69 | the push with SP-2 holding the high byte itself |
| Corrected.PushStackFixedReadsBack | internal/CPU.go:64-69 | after the corrected push, the stack top reads back the pushed word |
| Corrected.PushStackReadsBackOnlyForSelfNegatingHigh | internal/CPU.go:64-69 | as written, the stack top reads back the pushed word iff its high byte is 0x00 or 0x80 |
| Corrected.RrcaFixed | internal/CPU.go:117-126 | A rotated right through itself: bit 0 enters bit 7 and the carry |
| Corrected.RotationsInverse | internal/CPU.go:109-126 | the corrected RRCA and RLCA undo each other on A |
| Corrected.RrcaUndoneOnlyWhenCarryMatches | internal/CPU.go:109-126 | as written, RLCA after RRCA restores A iff the old carry equalled bit 0 of A |
| Corrected.Rst38hFixed | internal/CPU.go:186-190 | RST pushing PC+1 with the corrected push, then jumping to 0x0038 |
| Corrected.Rst38hFixedReturnAddress | internal/CPU.go:186-190 | after the corrected RST the stack top is the address after the RST opcode |
| Corrected.Rst38hPushesOwnAddress | internal/CPU.go:186-190 | as written, the pushed low byte is never that of the address after the RST opcode |
| Corrected.NewFullMemory | memory/Memory.go:14-17 | a memory with a zero cell for every 16-bit address |
| Corrected.LdCANeverFaultsOnFullMemory | memory/Memory.go:16 | over a full-size memory, 0xE0 never panics |
| Corrected.ExecuteFixed | internal/CPU.go:73-77 | with the corrected RRCA and RST 38H, running a handler still never resizes memory, panics only at an address outside memory, and only 0xE0, 0xEA and 0xFF write memory |
| Corrected.ExecuteFixedPreservesFlags | internal/CPU.go:104-190 | the corrected handlers also set none of the low four flag bits |

## Left out

- File input: `LoadROM` and `LoadCartridge` open and read the file, and on failure print, exit (`log.Fatal`) or return an error. Only the handling of the bytes once read is modelled.
- Console output: `fmt.Println`/`Printf` in `NewCPU`, `NewMemory`, `NewRTC`, `LoadROM` and `Cycle`, and `Cartridge.Debug`. None of it affects state.
- `RTC.lastSync`: a wall-clock timestamp that nothing in the core reads.
- `RTC.latched`: kept as a field. No operation of the core reads or writes it after `NewRTC`.
- The program entry point cmd/GoBoy.go: it wires the parts together and loops on `Cycle`. It is not part of this model.
- The global mutable `opcodeTable`: modelled as the pure decoder `Decode`. Before `InitOpcodeTable` runs, every opcode would halt `Cycle`. The model assumes the table has been initialised.
- Go panics: an out-of-range slice index becomes an `OutOfRange`/`Panic` outcome. The partial register updates made before the panic are not kept, because a Go panic ends the program.
- Cartridge.ParseTitle: the title is kept as the 16 raw bytes. Go's `string(...)` conversion is a reinterpretation with no change of content.
- Memory.LoadRom: modelled on the byte copy only; the file name and path are outside the model.

## Findings

| source | as written | input that shows it | evidently intended | confidence | as-written member | corrected member |
|---|---|---|---|---|---|---|
| internal/CPU.go:47-49 | `HL` assembles B and C | H=0x12, L=0x34, B=C=0: `HL` reads 0 | `HL` assembles H and L | high; not executed | Cpu.HLRoundTripFails | Corrected.HLFixedRoundTrip |
| internal/CPU.go:68 | the byte at SP-2 is `byte((value>>8)*0xFF)`, the negated high byte | pushing 0x0100 stores 0xFF at SP-2 instead of 0x01 | the byte at SP-2 is `byte(value>>8)` | high; not executed | Corrected.PushStackReadsBackOnlyForSelfNegatingHigh | Corrected.PushStackFixedReadsBack |
| internal/CPU.go:119-124 | RRCA shifts the old carry into bit 7, then takes the carry from bit 0 of the new A | A=0x01 with carry clear gives A=0x00 with carry clear, and bit 0 is lost | rotate A right: old bit 0 goes to bit 7 and to the carry | high; not executed | Corrected.RrcaUndoneOnlyWhenCarryMatches | Corrected.RotationsInverse |
| internal/CPU.go:188 | RST 38H pushes the PC of the RST opcode itself | RST at 0x0150 pushes low byte 0x50, not 0x51 | push the address of the next instruction, PC+1 | medium; not executed | Corrected.Rst38hPushesOwnAddress | Corrected.Rst38hFixedReturnAddress |
| memory/Memory.go:16 | memory has 0xFFFF cells, so address 0xFFFF has none | 0xE0 with C=0xFF panics | 0x10000 cells, one per 16-bit address | medium; not executed | Cpu.LdCAPanicsOnLastAddress | Corrected.LdCANeverFaultsOnFullMemory |
