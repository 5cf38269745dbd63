/** The CPU register file and instruction handlers (internal/CPU.go).
    The Go `CPU` struct owns a pointer to the memory; here the memory is
    a field of the immutable register record, and every handler is a
    pure function from one record to the next. A Go memory access past
    the end of the slice panics; the model reports such an access as an
    `OutOfRange` outcome carrying the offending address. The defects of
    the source are kept as written: `HL` reads B and C, `PushStack`
    multiplies the high byte by 0xFF, and `RRCA` rotates the old carry
    into bit 7. */
module Cpu {

  import opened Bits
  import Memory

  datatype Cpu = Cpu(
    a: Byte, b: Byte, c: Byte, d: Byte, e: Byte, h: Byte, l: Byte, f: Byte,
    sp: Word,
    pc: Word,
    ime: bool,
    memory: Memory.Memory)

  /** The outcome of a handler: the next state, or the address whose
      access would have panicked. */
  datatype Exec = Done(cpu: Cpu) | OutOfRange(address: Word)

  /** Entry point of every cartridge. */
  const EntryPoint: Word := 0x0100

  /** `NewCPU`: every register zero except PC, which starts at the entry point. */
  function NewCpu(m: Memory.Memory): (c: Cpu)
    ensures c.pc == EntryPoint && c.memory == m && !c.ime
    ensures c.a == 0 && c.b == 0 && c.c == 0 && c.d == 0 && c.e == 0
    ensures c.h == 0 && c.l == 0 && c.f == 0 && c.sp == 0
  {
    Cpu(0, 0, 0, 0, 0, 0, 0, 0, 0, EntryPoint, false, m)
  }

  // ---------------------------------------------------------------------
  // Register pairs

  /** `AF`: A is the high byte, F the low byte. */
  function AF(c: Cpu): (w: Word)
    ensures w / 0x100 == c.a && w % 0x100 == c.f
  {
    Join(c.a, c.f)
  }

  /** `SetAF`: A takes the high byte and F the low byte; nothing else changes. */
  function SetAF(c: Cpu, v: Word): (c': Cpu)
    ensures c'.a * 0x100 + c'.f == v
    ensures c' == c.(a := c'.a, f := c'.f)
  {
    c.(a := High(v), f := Low(v))
  }

  /** `BC`: B is the high byte, C the low byte. */
  function BC(c: Cpu): (w: Word)
    ensures w / 0x100 == c.b && w % 0x100 == c.c
  {
    Join(c.b, c.c)
  }

  /** `SetBC`: B takes the high byte and C the low byte; nothing else changes. */
  function SetBC(c: Cpu, v: Word): (c': Cpu)
    ensures c'.b * 0x100 + c'.c == v
    ensures c' == c.(b := c'.b, c := c'.c)
  {
    c.(b := High(v), c := Low(v))
  }

  /** `DE`: D is the high byte, E the low byte. */
  function DE(c: Cpu): (w: Word)
    ensures w / 0x100 == c.d && w % 0x100 == c.e
  {
    Join(c.d, c.e)
  }

  /** `SetDE`: D takes the high byte and E the low byte; nothing else changes. */
  function SetDE(c: Cpu, v: Word): (c': Cpu)
    ensures c'.d * 0x100 + c'.e == v
    ensures c' == c.(d := c'.d, e := c'.e)
  {
    c.(d := High(v), e := Low(v))
  }

  /** `HL` as written: it assembles B and C, not H and L. */
  function HL(c: Cpu): (w: Word)
    ensures w / 0x100 == c.b && w % 0x100 == c.c
  {
    Join(c.b, c.c)
  }

  /** `SetHL`: H takes the high byte and L the low byte; nothing else changes. */
  function SetHL(c: Cpu, v: Word): (c': Cpu)
    ensures c'.h * 0x100 + c'.l == v
    ensures c' == c.(h := c'.h, l := c'.l)
  {
    c.(h := High(v), l := Low(v))
  }

  /** Writing AF, BC or DE and reading the same pair back gives the written
      word, and reading a pair and writing it back changes nothing. */
  lemma PairRoundTrips(c: Cpu, v: Word)
    ensures AF(SetAF(c, v)) == v && SetAF(c, AF(c)) == c
    ensures BC(SetBC(c, v)) == v && SetBC(c, BC(c)) == c
    ensures DE(SetDE(c, v)) == v && SetDE(c, DE(c)) == c
  {
  }

  /** `HL` always reads the same word as `BC`, whatever H and L hold. */
  lemma HLReadsBC(c: Cpu, v: Word)
    ensures HL(c) == BC(c)
    ensures HL(SetHL(c, v)) == HL(c)
  {
  }

  /** The HL round trip fails: after `SetHL(0x1234)` on a fresh CPU, `HL` still reads 0. */
  lemma HLRoundTripFails(m: Memory.Memory)
    ensures HL(SetHL(NewCpu(m), 0x1234)) == 0
  {
  }

  // ---------------------------------------------------------------------
  // Flags

  /** Bit 4 of F is the carry flag. */
  const CarryBit: nat := 4

  predicate Carry(c: Cpu)
  {
    Bit(c.f, CarryBit)
  }

  /** The bits of F other than the carry (3-0 and 7-5) are the same in `f` and `f'`. */
  predicate OtherFlagsKept(f: Byte, f': Byte)
  {
    f' % 0x10 == f % 0x10 && f' / 0x20 == f / 0x20
  }

  /** `SetCarryFlag`: an argument of exactly 1 sets the carry bit, any other
      argument clears it; the other bits of F and all other registers stay. */
  function SetCarryFlag(c: Cpu, value: Byte): (c': Cpu)
    ensures Carry(c') <==> value == 1
    ensures OtherFlagsKept(c.f, c'.f)
    ensures c' == c.(f := c'.f)
  {
    if value == 1 then c.(f := SetBit(c.f, CarryBit)) else c.(f := ClearBit(c.f, CarryBit))
  }

  /** Setting the carry flag twice is setting it once, and the flag can be
      saved and restored through `SetCarryFlag`. */
  lemma SetCarryFlagIdempotent(c: Cpu, value: Byte)
    ensures SetCarryFlag(SetCarryFlag(c, value), value) == SetCarryFlag(c, value)
    ensures SetCarryFlag(c, if Carry(c) then 1 else 0) == c
  {
  }

  // ---------------------------------------------------------------------
  // Stack

  /** `m'` is `m` with `first` at `sp - 1`, `second` at `sp - 2` (both
      wrapping) and every other cell, and the size, unchanged. */
  ghost predicate StackWritten(m: Memory.Memory, m': Memory.Memory, sp: Word, first: Byte, second: Byte)
  {
    && |m'.data| == |m.data|
    && Memory.InRange(m', Wrap16(sp - 1)) && Memory.GetByte(m', Wrap16(sp - 1)) == first
    && Memory.InRange(m', Wrap16(sp - 2)) && Memory.GetByte(m', Wrap16(sp - 2)) == second
    && forall i :: 0 <= i < |m.data| && i != Wrap16(sp - 1) && i != Wrap16(sp - 2) ==>
         m'.data[i] == m.data[i]
  }

  /** A push of two bytes panics at the first stack cell outside memory. */
  ghost predicate PushFaults(c: Cpu, r: Exec)
  {
    && (!Memory.InRange(c.memory, Wrap16(c.sp - 1)) ==> r == OutOfRange(Wrap16(c.sp - 1)))
    && (Memory.InRange(c.memory, Wrap16(c.sp - 1)) && !Memory.InRange(c.memory, Wrap16(c.sp - 2)) ==>
          r == OutOfRange(Wrap16(c.sp - 2)))
  }

  /** `PushStack` as written: SP-1 receives the low byte and SP-2 receives
      `byte((value >> 8) * 0xFF)`, which is the two's-complement negation
      of the high byte rather than the high byte itself. The product is at
      most 0xFE01, so only the truncation to a byte reduces it. */
  function PushStack(c: Cpu, value: Word): (r: Exec)
    ensures r.Done? <==>
      Memory.InRange(c.memory, Wrap16(c.sp - 1)) && Memory.InRange(c.memory, Wrap16(c.sp - 2))
    ensures PushFaults(c, r)
    ensures r.Done? ==>
      && r.cpu.sp == Wrap16(c.sp - 2)
      && r.cpu == c.(sp := r.cpu.sp, memory := r.cpu.memory)
      && StackWritten(c.memory, r.cpu.memory, c.sp, value % 0x100, (0x100 - value / 0x100) % 0x100)
  {
    var sp1 := Wrap16(c.sp - 1);
    if !Memory.InRange(c.memory, sp1) then
      OutOfRange(sp1)
    else
      var m1 := Memory.StoreByte(c.memory, sp1, Truncate8(value));
      var sp2 := Wrap16(sp1 - 1);
      if !Memory.InRange(m1, sp2) then
        OutOfRange(sp2)
      else
        var m2 := Memory.StoreByte(m1, sp2, Truncate8(High(value) * 0xFF));
        Done(c.(sp := sp2, memory := m2))
  }

  // ---------------------------------------------------------------------
  // Immediate operands

  /** Address of the `k`-th byte after the opcode, with `uint16` wrap-around. */
  function OperandAddress(c: Cpu, k: nat): Word
  {
    Wrap16(c.pc + k)
  }

  /** Both operand bytes after the opcode lie inside memory. */
  predicate Immediate16InRange(c: Cpu)
  {
    Memory.InRange(c.memory, OperandAddress(c, 1)) && Memory.InRange(c.memory, OperandAddress(c, 2))
  }

  /** The little-endian word that follows the opcode: low byte first. */
  function Immediate16(c: Cpu): (w: Word)
    requires Immediate16InRange(c)
    ensures w % 0x100 == Memory.GetByte(c.memory, OperandAddress(c, 1))
    ensures w / 0x100 == Memory.GetByte(c.memory, OperandAddress(c, 2))
  {
    var low := Memory.GetByte(c.memory, OperandAddress(c, 1));
    var high := Memory.GetByte(c.memory, OperandAddress(c, 2));
    Join(high, low)
  }

  /** A handler that reads a 16-bit immediate panics at the first operand
      byte that lies outside memory. */
  ghost predicate Immediate16Faults(c: Cpu, r: Exec)
  {
    && (!Memory.InRange(c.memory, OperandAddress(c, 1)) ==> r == OutOfRange(OperandAddress(c, 1)))
    && (Memory.InRange(c.memory, OperandAddress(c, 1)) && !Memory.InRange(c.memory, OperandAddress(c, 2)) ==>
          r == OutOfRange(OperandAddress(c, 2)))
  }

  /** `m'` is `m` with `v` at `addr` and every other cell, and the size, unchanged. */
  ghost predicate Stored(m: Memory.Memory, m': Memory.Memory, addr: Word, v: Byte)
  {
    && |m'.data| == |m.data|
    && Memory.InRange(m', addr) && Memory.GetByte(m', addr) == v
    && forall i :: 0 <= i < |m.data| && i != addr ==> m'.data[i] == m.data[i]
  }

  // ---------------------------------------------------------------------
  // Instruction handlers

  /** 0x00 NOP: only PC moves, by one. */
  function Nop(c: Cpu): (c': Cpu)
    ensures c'.pc == OperandAddress(c, 1)
    ensures c' == c.(pc := c'.pc)
  {
    c.(pc := Wrap16(c.pc + 1))
  }

  /** 0x07 RLCA: rotate A left; the bit leaving bit 7 re-enters at bit 0
      and becomes the carry. Other flag bits stay. */
  function Rlca(c: Cpu): (c': Cpu)
    ensures c'.a / 2 == c.a % 0x80 && (c'.a % 2 == 1 <==> Bit(c.a, 7))
    ensures Carry(c') <==> Bit(c.a, 7)
    ensures OtherFlagsKept(c.f, c'.f)
    ensures c'.pc == OperandAddress(c, 1)
    ensures c' == c.(a := c'.a, f := c'.f, pc := c'.pc)
  {
    var carry := (c.a / 0x80) % 2;
    var c1 := c.(a := Truncate8(c.a * 2) + carry);
    var c2 := SetCarryFlag(c1, carry);
    c2.(pc := Wrap16(c2.pc + 1))
  }

  /** 0x0F RRCA as written: shift A right with the old carry entering bit 7,
      then take the new carry from bit 0 of the new A, which is bit 1 of
      the old A. The old bit 0 is lost. */
  function Rrca(c: Cpu): (c': Cpu)
    ensures c'.a % 0x80 == c.a / 2 && (c'.a >= 0x80 <==> Carry(c))
    ensures Carry(c') <==> Bit(c.a, 1)
    ensures OtherFlagsKept(c.f, c'.f)
    ensures c'.pc == OperandAddress(c, 1)
    ensures c' == c.(a := c'.a, f := c'.f, pc := c'.pc)
  {
    var carry := AndBit(c.f, CarryBit) / 0x10;
    var c1 := c.(f := ClearBit(c.f, CarryBit));
    var c2 := c1.(a := c1.a / 2 + carry * 0x80);
    assert carry == (if Carry(c) then 1 else 0);
    assert OtherFlagsKept(c.f, c1.f);
    assert c2.a % 0x80 == c.a / 2 && c2.a / 0x80 == carry;
    assert c2.a % 2 == (c.a / 2) % 2;
    var c3 := SetCarryFlag(c2, c2.a % 2);
    assert Carry(c3) <==> Bit(c.a, 1);
    c3.(pc := Wrap16(c3.pc + 1))
  }

  /** 0x31 LD SP,u16: SP takes the little-endian immediate; PC moves past
      the three instruction bytes. */
  function LdSpU16(c: Cpu): (r: Exec)
    ensures r.Done? <==> Immediate16InRange(c)
    ensures Immediate16Faults(c, r)
    ensures r.Done? ==>
      && r.cpu.sp % 0x100 == Memory.GetByte(c.memory, OperandAddress(c, 1))
      && r.cpu.sp / 0x100 == Memory.GetByte(c.memory, OperandAddress(c, 2))
      && r.cpu.pc == OperandAddress(c, 3)
      && r.cpu == c.(sp := r.cpu.sp, pc := r.cpu.pc)
  {
    if !Memory.InRange(c.memory, OperandAddress(c, 1)) then
      OutOfRange(OperandAddress(c, 1))
    else if !Memory.InRange(c.memory, OperandAddress(c, 2)) then
      OutOfRange(OperandAddress(c, 2))
    else
      Done(c.(sp := Immediate16(c), pc := Wrap16(c.pc + 3)))
  }

  /** 0x3E LD A,u8: A takes the byte after the opcode; PC moves by two. */
  function LdAU8(c: Cpu): (r: Exec)
    ensures r.Done? <==> Memory.InRange(c.memory, OperandAddress(c, 1))
    ensures r.OutOfRange? ==> r.address == OperandAddress(c, 1)
    ensures r.Done? ==>
      && r.cpu.a == Memory.GetByte(c.memory, OperandAddress(c, 1))
      && r.cpu.pc == OperandAddress(c, 2)
      && r.cpu == c.(a := r.cpu.a, pc := r.cpu.pc)
  {
    var pc1 := Wrap16(c.pc + 1);
    if !Memory.InRange(c.memory, pc1) then
      OutOfRange(pc1)
    else
      Done(c.(a := Memory.GetByte(c.memory, pc1), pc := Wrap16(pc1 + 1)))
  }

  /** 0x55 LD D,L: D takes a copy of L; PC moves by one. */
  function LdDL(c: Cpu): (c': Cpu)
    ensures c'.d == c.l
    ensures c'.pc == OperandAddress(c, 1)
    ensures c' == c.(d := c'.d, pc := c'.pc)
  {
    c.(d := c.l, pc := Wrap16(c.pc + 1))
  }

  /** 0xC3 JP u16: PC takes the little-endian immediate, with no further increment. */
  function JpU16(c: Cpu): (r: Exec)
    ensures r.Done? <==> Immediate16InRange(c)
    ensures Immediate16Faults(c, r)
    ensures r.Done? ==>
      && r.cpu.pc % 0x100 == Memory.GetByte(c.memory, OperandAddress(c, 1))
      && r.cpu.pc / 0x100 == Memory.GetByte(c.memory, OperandAddress(c, 2))
      && r.cpu == c.(pc := r.cpu.pc)
  {
    if !Memory.InRange(c.memory, OperandAddress(c, 1)) then
      OutOfRange(OperandAddress(c, 1))
    else if !Memory.InRange(c.memory, OperandAddress(c, 2)) then
      OutOfRange(OperandAddress(c, 2))
    else
      Done(c.(pc := Immediate16(c)))
  }

  /** The I/O-page address 0xFF00 + C used by 0xE0. */
  function IoAddress(c: Cpu): (addr: Word)
    ensures addr / 0x100 == 0xFF && addr % 0x100 == c.c
  {
    0xFF00 + c.c
  }

  /** 0xE0 as written (LD (0xFF00+C),A): A is stored at 0xFF00 + C; PC moves by one. */
  function LdCA(c: Cpu): (r: Exec)
    ensures r.Done? <==> Memory.InRange(c.memory, IoAddress(c))
    ensures r.OutOfRange? ==> r.address == IoAddress(c)
    ensures r.Done? ==>
      && Stored(c.memory, r.cpu.memory, IoAddress(c), c.a)
      && r.cpu.pc == OperandAddress(c, 1)
      && r.cpu == c.(memory := r.cpu.memory, pc := r.cpu.pc)
  {
    var address := IoAddress(c);
    if !Memory.InRange(c.memory, address) then
      OutOfRange(address)
    else
      Done(c.(memory := Memory.StoreByte(c.memory, address, c.a), pc := Wrap16(c.pc + 1)))
  }

  /** 0xEA LD (u16),A: A is stored at the little-endian immediate address;
      PC moves past the three instruction bytes. */
  function LdU16A(c: Cpu): (r: Exec)
    ensures r.Done? <==> Immediate16InRange(c) && Memory.InRange(c.memory, Immediate16(c))
    ensures Immediate16Faults(c, r)
    ensures Immediate16InRange(c) && !Memory.InRange(c.memory, Immediate16(c)) ==>
      r == OutOfRange(Immediate16(c))
    ensures r.Done? ==>
      && Stored(c.memory, r.cpu.memory, Immediate16(c), c.a)
      && r.cpu.pc == OperandAddress(c, 3)
      && r.cpu == c.(memory := r.cpu.memory, pc := r.cpu.pc)
  {
    if !Memory.InRange(c.memory, OperandAddress(c, 1)) then
      OutOfRange(OperandAddress(c, 1))
    else if !Memory.InRange(c.memory, OperandAddress(c, 2)) then
      OutOfRange(OperandAddress(c, 2))
    else
      var location := Immediate16(c);
      if !Memory.InRange(c.memory, location) then
        OutOfRange(location)
      else
        Done(c.(memory := Memory.StoreByte(c.memory, location, c.a), pc := Wrap16(c.pc + 3)))
  }

  /** 0xF3 DI: interrupts disabled; PC moves by one. */
  function Di(c: Cpu): (c': Cpu)
    ensures !c'.ime
    ensures c'.pc == OperandAddress(c, 1)
    ensures c' == c.(ime := false, pc := c'.pc)
  {
    c.(ime := false, pc := Wrap16(c.pc + 1))
  }

  /** 0xFF RST 38H: push the current PC (the address of the RST opcode
      itself) and jump to 0x0038. */
  function Rst38h(c: Cpu): (r: Exec)
    ensures r.Done? <==>
      Memory.InRange(c.memory, Wrap16(c.sp - 1)) && Memory.InRange(c.memory, Wrap16(c.sp - 2))
    ensures PushFaults(c, r)
    ensures r.Done? ==>
      && r.cpu.pc == 0x0038
      && r.cpu.sp == Wrap16(c.sp - 2)
      && StackWritten(c.memory, r.cpu.memory, c.sp, c.pc % 0x100, (0x100 - c.pc / 0x100) % 0x100)
      && r.cpu == c.(sp := r.cpu.sp, memory := r.cpu.memory, pc := r.cpu.pc)
  {
    match PushStack(c, c.pc)
    case Done(pushed) => Done(pushed.(pc := 0x0038))
    case OutOfRange(address) => OutOfRange(address)
  }

  // ---------------------------------------------------------------------
  // Decode and dispatch

  /** The eleven opcodes `InitOpcodeTable` installs. */
  datatype Instruction =
    | NOP | RLCA | RRCA | LD_SP_U16 | LD_A_U8 | LD_D_L
    | JP_U16 | LD_C_A | LD_U16_A | DI | RST_38H

  datatype Option<T> = None | Some(value: T)

  /** The opcode bytes that have a handler. */
  const Mapped: set<Byte> := {0x00, 0x07, 0x0F, 0x31, 0x3E, 0x55, 0xC3, 0xE0, 0xEA, 0xF3, 0xFF}

  /** `InitOpcodeTable` read as a decoder: the handler installed for an opcode, if any. */
  function Decode(op: Byte): (i: Option<Instruction>)
    ensures i.Some? <==> op in Mapped
  {
    match op
    case 0x00 => Some(NOP)
    case 0x07 => Some(RLCA)
    case 0x0F => Some(RRCA)
    case 0x31 => Some(LD_SP_U16)
    case 0x3E => Some(LD_A_U8)
    case 0x55 => Some(LD_D_L)
    case 0xC3 => Some(JP_U16)
    case 0xE0 => Some(LD_C_A)
    case 0xEA => Some(LD_U16_A)
    case 0xF3 => Some(DI)
    case 0xFF => Some(RST_38H)
    case _ => None
  }

  /** The opcode byte each instruction is installed under. */
  function Encode(i: Instruction): (op: Byte)
    ensures op in Mapped
  {
    match i
    case NOP => 0x00
    case RLCA => 0x07
    case RRCA => 0x0F
    case LD_SP_U16 => 0x31
    case LD_A_U8 => 0x3E
    case LD_D_L => 0x55
    case JP_U16 => 0xC3
    case LD_C_A => 0xE0
    case LD_U16_A => 0xEA
    case DI => 0xF3
    case RST_38H => 0xFF
  }

  /** Decoding is the inverse of the table: every instruction decodes from
      its own opcode, and every decoded opcode is that instruction's. */
  lemma DecodeEncode(i: Instruction, op: Byte)
    ensures Decode(Encode(i)) == Some(i)
    ensures Decode(op) == Some(i) ==> Encode(i) == op
  {
  }

  /** Run the handler of a decoded instruction. */
  function Execute(i: Instruction, c: Cpu): (r: Exec)
    ensures r.OutOfRange? ==> !Memory.InRange(c.memory, r.address)
    ensures r.Done? ==> |r.cpu.memory.data| == |c.memory.data|
    ensures r.Done? && i != LD_C_A && i != LD_U16_A && i != RST_38H ==> r.cpu.memory == c.memory
  {
    match i
    case NOP => Done(Nop(c))
    case RLCA => Done(Rlca(c))
    case RRCA => Done(Rrca(c))
    case LD_SP_U16 => LdSpU16(c)
    case LD_A_U8 => LdAU8(c)
    case LD_D_L => Done(LdDL(c))
    case JP_U16 => JpU16(c)
    case LD_C_A => LdCA(c)
    case LD_U16_A => LdU16A(c)
    case DI => Done(Di(c))
    case RST_38H => Rst38h(c)
  }

  /** Bytes each instruction occupies: opcode plus operands. */
  function Length(i: Instruction): nat
  {
    match i
    case LD_SP_U16 | JP_U16 | LD_U16_A => 3
    case LD_A_U8 => 2
    case _ => 1
  }

  /** Every handler except the two jumps leaves PC at the next instruction. */
  lemma SequentialAdvance(i: Instruction, c: Cpu)
    requires i != JP_U16 && i != RST_38H
    requires Execute(i, c).Done?
    ensures Execute(i, c).cpu.pc == OperandAddress(c, Length(i))
  {
  }

  /** The result of one `Cycle`: `Continue` and `Halt` are Go's `false` and
      `true`; `Panic` is an index-out-of-range panic at `address`. */
  datatype StepResult = Continue(cpu: Cpu) | Halt(cpu: Cpu) | Panic(address: Word)

  /** `Cycle`: fetch the opcode at PC; halt with no state change when it has
      no handler, otherwise run that handler and continue. */
  function Cycle(c: Cpu): (r: StepResult)
    ensures !Memory.InRange(c.memory, c.pc) ==> r == Panic(c.pc)
    ensures Memory.InRange(c.memory, c.pc) ==>
      (r.Halt? <==> Memory.GetByte(c.memory, c.pc) !in Mapped)
    ensures r.Halt? ==> r.cpu == c
    ensures Memory.InRange(c.memory, c.pc) && Memory.GetByte(c.memory, c.pc) in Mapped ==>
      match Execute(Decode(Memory.GetByte(c.memory, c.pc)).value, c)
      case Done(next) => r == Continue(next)
      case OutOfRange(address) => r == Panic(address)
  {
    if !Memory.InRange(c.memory, c.pc) then
      Panic(c.pc)
    else
      match Decode(Memory.GetByte(c.memory, c.pc))
      case None => Halt(c)
      case Some(i) =>
        match Execute(i, c)
        case Done(next) => Continue(next)
        case OutOfRange(address) => Panic(address)
  }

  // ---------------------------------------------------------------------
  // Properties across handlers

  /** Bits 3-0 of F are zero. */
  predicate FlagsWellFormed(c: Cpu)
  {
    c.f % 0x10 == 0
  }

  /** No handler sets a low flag bit that was clear. */
  lemma ExecutePreservesFlags(i: Instruction, c: Cpu)
    requires FlagsWellFormed(c)
    requires Execute(i, c).Done?
    ensures FlagsWellFormed(Execute(i, c).cpu)
  {
  }

  /** A fresh CPU over memory whose entry byte is 0x00 steps once to PC 0x0101,
      every other register unchanged. */
  lemma FirstStepFromNop(m: Memory.Memory)
    requires |m.data| == Memory.Size
    requires m.data[0x0100] == 0x00
    ensures Cycle(NewCpu(m)) == Continue(NewCpu(m).(pc := 0x0101))
  {
  }

  /** With the allocated memory size, 0xE0 panics exactly when C is 0xFF,
      because 0xFFFF has no cell. */
  lemma LdCAPanicsOnLastAddress(c: Cpu)
    requires |c.memory.data| == Memory.Size
    ensures LdCA(c).OutOfRange? <==> c.c == 0xFF
  {
    Memory.InRangeIffNotLast(c.memory, IoAddress(c));
  }
}
