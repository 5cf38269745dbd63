/** The emulator's flat memory (memory/Memory.go): one byte slice with no
    region routing, no banking and no echo RAM. A Go slice panics on an
    index past its end, so `GetByte` and `StoreByte` require the address
    to be in range, and the CPU checks the range before each access. */
module Memory {

  import opened Bits

  /** Number of cells `NewMemory` allocates: 0xFFFF, so the last bus
      address 0xFFFF has no cell. */
  const Size: nat := 0xFFFF

  datatype Memory = Memory(data: seq<Byte>)

  /** Whether an access at `a` stays inside the slice. */
  predicate InRange(m: Memory, a: Word)
  {
    a < |m.data|
  }

  /** `NewMemory`: 0xFFFF zero bytes. */
  function NewMemory(): (m: Memory)
    ensures |m.data| == Size
    ensures forall i :: 0 <= i < |m.data| ==> m.data[i] == 0
  {
    Memory(seq(Size, _ => 0))
  }

  /** In a memory of the allocated size every address but 0xFFFF has a cell. */
  lemma InRangeIffNotLast(m: Memory, a: Word)
    requires |m.data| == Size
    ensures InRange(m, a) <==> a != 0xFFFF
  {
  }

  /** `GetByte`: the byte stored at `a`. */
  function GetByte(m: Memory, a: Word): (b: Byte)
    requires InRange(m, a)
    ensures StoreByte(m, a, b) == m
  {
    assert m.data[a := m.data[a]] == m.data;
    m.data[a]
  }

  /** `StoreByte`: cell `a` becomes `v`; the size and every other cell are kept. */
  function StoreByte(m: Memory, a: Word, v: Byte): (m': Memory)
    requires InRange(m, a)
    ensures |m'.data| == |m.data|
    ensures forall i :: 0 <= i < |m.data| && i != a ==> m'.data[i] == m.data[i]
    ensures InRange(m', a) && m'.data[a] == v
  {
    Memory(m.data[a := v])
  }

  /** A store is seen by the next load at the same address. */
  lemma StoreThenGet(m: Memory, a: Word, v: Byte)
    requires InRange(m, a)
    ensures GetByte(StoreByte(m, a, v), a) == v
  {
  }

  /** A store leaves loads at every other address unchanged. */
  lemma StoreThenGetOther(m: Memory, a: Word, b: Word, v: Byte)
    requires InRange(m, a) && InRange(m, b) && a != b
    ensures InRange(StoreByte(m, a, v), b)
    ensures GetByte(StoreByte(m, a, v), b) == GetByte(m, b)
  {
  }

  /** Storing the byte a cell already holds changes nothing. */
  lemma StoreSame(m: Memory, a: Word)
    requires InRange(m, a)
    ensures StoreByte(m, a, GetByte(m, a)) == m
  {
    assert m.data[a := m.data[a]] == m.data;
  }

  /** The byte-copy step of `LoadROM`: Go's `copy(m.Data[0:], romData)`
      overwrites the first min(|rom|, |data|) cells with the ROM prefix. */
  method LoadRom(m: Memory, rom: seq<Byte>) returns (m': Memory)
    ensures |m'.data| == |m.data|
    ensures forall i :: 0 <= i < |m.data| && i < |rom| ==> m'.data[i] == rom[i]
    ensures forall i :: |rom| <= i < |m.data| ==> m'.data[i] == m.data[i]
  {
    var data := m.data;
    var n := if |rom| < |data| then |rom| else |data|;
    var i := 0;
    while i < n
      invariant 0 <= i <= n
      invariant |data| == |m.data|
      invariant forall j :: 0 <= j < i ==> data[j] == rom[j]
      invariant forall j :: i <= j < |data| ==> data[j] == m.data[j]
    {
      data := data[i := rom[i]];
      i := i + 1;
    }
    m' := Memory(data);
  }
}
