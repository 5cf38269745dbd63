/** Corrected counterparts of the handlers whose behaviour in
    internal/CPU.go and memory/Memory.go departs from what the code
    evidently intends, each next to a lemma that exhibits the departure
    of the version the `Cpu` module keeps as written. */
module Corrected {

  import opened Bits
  import Memory
  import opened Cpu

  // ---------------------------------------------------------------------
  // HL

  /** `HL` reading H and L, the pair `SetHL` writes. */
  function HLFixed(c: Cpu): (w: Word)
    ensures w / 0x100 == c.h && w % 0x100 == c.l
  {
    Join(c.h, c.l)
  }

  /** The corrected `HL` and `SetHL` form a round trip in both directions. */
  lemma HLFixedRoundTrip(c: Cpu, v: Word)
    ensures HLFixed(SetHL(c, v)) == v
    ensures SetHL(c, HLFixed(c)) == c
  {
  }

  /** As written, `HL` gives back what `SetHL` stored only when that word
      already equals BC. */
  lemma HLRoundTripOnlyWhenBC(c: Cpu, v: Word)
    ensures HL(SetHL(c, v)) == v <==> BC(c) == v
  {
  }

  // ---------------------------------------------------------------------
  // Stack

  /** The word a push leaves at the new stack pointer, read back in the
      order `PushStack` writes it: high byte at SP, low byte at SP+1. */
  function StackTop(m: Memory.Memory, sp: Word): (w: Word)
    requires Memory.InRange(m, sp) && Memory.InRange(m, Wrap16(sp + 1))
    ensures w / 0x100 == Memory.GetByte(m, sp)
    ensures w % 0x100 == Memory.GetByte(m, Wrap16(sp + 1))
  {
    Join(Memory.GetByte(m, sp), Memory.GetByte(m, Wrap16(sp + 1)))
  }

  /** `PushStack` with the high byte masked (`byte(value >> 8)`) instead
      of multiplied by 0xFF. */
  function PushStackFixed(c: Cpu, value: Word): (r: Exec)
    ensures r.Done? <==>
      Memory.InRange(c.memory, Wrap16(c.sp - 1)) && Memory.InRange(c.memory, Wrap16(c.sp - 2))
    ensures PushFaults(c, r)
    ensures r.Done? ==>
      && r.cpu.sp == Wrap16(c.sp - 2)
      && r.cpu == c.(sp := r.cpu.sp, memory := r.cpu.memory)
      && StackWritten(c.memory, r.cpu.memory, c.sp, value % 0x100, value / 0x100)
  {
    var sp1 := Wrap16(c.sp - 1);
    if !Memory.InRange(c.memory, sp1) then
      OutOfRange(sp1)
    else
      var m1 := Memory.StoreByte(c.memory, sp1, Low(value));
      var sp2 := Wrap16(sp1 - 1);
      if !Memory.InRange(m1, sp2) then
        OutOfRange(sp2)
      else
        var m2 := Memory.StoreByte(m1, sp2, High(value));
        Done(c.(sp := sp2, memory := m2))
  }

  /** After the corrected push the stack top reads back the pushed word. */
  lemma PushStackFixedReadsBack(c: Cpu, value: Word)
    requires PushStackFixed(c, value).Done?
    ensures var p := PushStackFixed(c, value).cpu;
      Memory.InRange(p.memory, p.sp) && Memory.InRange(p.memory, Wrap16(p.sp + 1)) &&
      StackTop(p.memory, p.sp) == value
  {
    var p := PushStackFixed(c, value).cpu;
    assert Wrap16(p.sp + 1) == Wrap16(c.sp - 1);
  }

  /** As written, the stack top reads back the pushed word exactly when its
      high byte is 0x00 or 0x80, the two bytes equal to their own negation;
      pushing 0x0100, for one, leaves 0xFF00. */
  lemma PushStackReadsBackOnlyForSelfNegatingHigh(c: Cpu, value: Word)
    requires PushStack(c, value).Done?
    ensures var p := PushStack(c, value).cpu;
      Memory.InRange(p.memory, p.sp) && Memory.InRange(p.memory, Wrap16(p.sp + 1)) &&
      (StackTop(p.memory, p.sp) == value <==> value / 0x100 == 0 || value / 0x100 == 0x80)
  {
    var p := PushStack(c, value).cpu;
    assert Wrap16(p.sp + 1) == Wrap16(c.sp - 1);
  }

  // ---------------------------------------------------------------------
  // RRCA

  /** RRCA rotating A right through itself: bit 0 moves to bit 7 and
      becomes the carry; the other flag bits stay. */
  function RrcaFixed(c: Cpu): (c': Cpu)
    ensures c'.a % 0x80 == c.a / 2 && (c'.a >= 0x80 <==> Bit(c.a, 0))
    ensures Carry(c') <==> Bit(c.a, 0)
    ensures OtherFlagsKept(c.f, c'.f)
    ensures c'.pc == OperandAddress(c, 1)
    ensures c' == c.(a := c'.a, f := c'.f, pc := c'.pc)
  {
    var bit0 := c.a % 2;
    var c1 := c.(a := c.a / 2 + bit0 * 0x80);
    var c2 := SetCarryFlag(c1, bit0);
    c2.(pc := Wrap16(c2.pc + 1))
  }

  /** The corrected right rotation and RLCA undo each other on A, and
      each leaves in the carry the bit it moved round. */
  lemma RotationsInverse(c: Cpu)
    ensures Rlca(RrcaFixed(c)).a == c.a
    ensures RrcaFixed(Rlca(c)).a == c.a
    ensures Carry(Rlca(RrcaFixed(c))) <==> Bit(c.a, 0)
  {
    assert RrcaFixed(c).a == c.a / 2 + (c.a % 2) * 0x80;
    assert Rlca(c).a == (c.a % 0x80) * 2 + c.a / 0x80;
  }

  /** As written, RLCA undoes RRCA only when the old carry happened to
      equal bit 0 of A: the rotation loses bit 0 and brings in the carry. */
  lemma RrcaUndoneOnlyWhenCarryMatches(c: Cpu)
    ensures Rlca(Rrca(c)).a == c.a <==> (Bit(c.a, 0) <==> Carry(c))
  {
  }

  // ---------------------------------------------------------------------
  // RST 38H

  /** RST 38H pushing the address of the next instruction with the
      corrected push, then jumping to 0x0038. */
  function Rst38hFixed(c: Cpu): (r: Exec)
    ensures r.Done? <==>
      Memory.InRange(c.memory, Wrap16(c.sp - 1)) && Memory.InRange(c.memory, Wrap16(c.sp - 2))
    ensures PushFaults(c, r)
    ensures r.Done? ==>
      && r.cpu.pc == 0x0038
      && r.cpu.sp == Wrap16(c.sp - 2)
      && StackWritten(c.memory, r.cpu.memory, c.sp, Wrap16(c.pc + 1) % 0x100, Wrap16(c.pc + 1) / 0x100)
      && r.cpu == c.(sp := r.cpu.sp, memory := r.cpu.memory, pc := r.cpu.pc)
  {
    match PushStackFixed(c, Wrap16(c.pc + 1))
    case Done(pushed) => Done(pushed.(pc := 0x0038))
    case OutOfRange(address) => OutOfRange(address)
  }

  /** The corrected RST leaves on the stack the address a return should
      resume at. */
  lemma Rst38hFixedReturnAddress(c: Cpu)
    requires Rst38hFixed(c).Done?
    ensures var p := Rst38hFixed(c).cpu;
      Memory.InRange(p.memory, p.sp) && Memory.InRange(p.memory, Wrap16(p.sp + 1)) &&
      StackTop(p.memory, p.sp) == OperandAddress(c, 1)
  {
    var v := OperandAddress(c, 1);
    var pushed := PushStackFixed(c, v);
    assert pushed.Done? && Rst38hFixed(c).cpu == pushed.cpu.(pc := 0x0038) by {
      assert Rst38hFixed(c) ==
        match pushed
        case Done(q) => Done(q.(pc := 0x0038))
        case OutOfRange(address) => OutOfRange(address);
    }
    PushStackFixedReadsBack(c, v);
  }

  /** As written, RST 38H pushes the low byte of its own address, which is
      never the low byte of the address after it. */
  lemma Rst38hPushesOwnAddress(c: Cpu)
    requires Rst38h(c).Done?
    ensures var p := Rst38h(c).cpu;
      Memory.InRange(p.memory, Wrap16(c.sp - 1)) &&
      Memory.GetByte(p.memory, Wrap16(c.sp - 1)) != OperandAddress(c, 1) % 0x100
  {
  }

  // ---------------------------------------------------------------------
  // Memory size

  /** Number of cells a memory needs to cover the whole 16-bit bus. */
  const FullSize: nat := 0x1_0000

  /** `NewMemory` allocating a cell for every bus address. */
  function NewFullMemory(): (m: Memory.Memory)
    ensures |m.data| == FullSize
    ensures forall a: Word :: Memory.InRange(m, a) && Memory.GetByte(m, a) == 0
  {
    Memory.Memory(seq(FullSize, _ => 0))
  }

  /** Over a full-size memory 0xE0 never panics, whatever C holds. */
  lemma LdCANeverFaultsOnFullMemory(c: Cpu)
    requires |c.memory.data| == FullSize
    ensures LdCA(c).Done?
  {
  }

  // ---------------------------------------------------------------------
  // Dispatch

  /** `Execute` with the corrected RRCA and RST 38H handlers. */
  function ExecuteFixed(i: Instruction, c: Cpu): (r: Exec)
    ensures r.OutOfRange? ==> !Memory.InRange(c.memory, r.address)
    ensures r.Done? ==> |r.cpu.memory.data| == |c.memory.data|
    ensures r.Done? && i != LD_C_A && i != LD_U16_A && i != RST_38H ==> r.cpu.memory == c.memory
  {
    match i
    case RRCA => Done(RrcaFixed(c))
    case RST_38H => Rst38hFixed(c)
    case _ => Execute(i, c)
  }

  /** The corrected handlers still keep the low flag bits clear. */
  lemma ExecuteFixedPreservesFlags(i: Instruction, c: Cpu)
    requires FlagsWellFormed(c)
    requires ExecuteFixed(i, c).Done?
    ensures FlagsWellFormed(ExecuteFixed(i, c).cpu)
  {
    if i != RRCA && i != RST_38H {
      ExecutePreservesFlags(i, c);
    }
  }
}
