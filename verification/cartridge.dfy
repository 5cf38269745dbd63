/** The cartridge header decoder (memory/Cartridge.go), as a pure
    function over the bytes of a ROM image that has already been read. */
module Cartridge {

  import opened Bits

  /** Smallest accepted image: the header ends at 0x14F. */
  const HeaderEnd: nat := 0x150
  const TitleStart: nat := 0x134
  const TitleEnd: nat := 0x144
  const MbcTypeOffset: nat := 0x147
  const RomSizeOffset: nat := 0x148
  const RamSizeOffset: nat := 0x149

  datatype Cartridge = Cartridge(
    rom: seq<Byte>,
    title: seq<Byte>,
    mbcType: Byte,
    romSize: int,
    ramSize: int)

  /** `LoadCartridge` either yields a cartridge or rejects an image that is too small. */
  datatype LoadResult = Loaded(cart: Cartridge) | TooSmall

  /** 2 to the power `n`, the reference for the ROM and RAM size tables. */
  function Pow2(n: nat): nat
  {
    if n == 0 then 1 else 2 * Pow2(n - 1)
  }

  /** `getROMSize`: the ROM size table indexed by the header code. Code n
      in 0..8 stands for 32 KiB doubled n times; every other code for 0. */
  function RomSize(code: Byte): (size: int)
    ensures code <= 8 ==> size == 32768 * Pow2(code)
    ensures code > 8 ==> size == 0
  {
    assert Pow2(8) == 256 by {
      assert Pow2(4) == 16;
    }
    var sizes := [32 * 1024, 64 * 1024, 128 * 1024, 256 * 1024, 512 * 1024,
                  1024 * 1024, 2048 * 1024, 4096 * 1024, 8192 * 1024];
    if code < |sizes| then sizes[code] else 0
  }

  /** `getRAMSize`: the RAM size table indexed by the header code. Code n
      in 1..4 stands for 2 KiB quadrupled n-1 times; 0 and every code past
      4 for 0. */
  function RamSize(code: Byte): (size: int)
    ensures 1 <= code <= 4 ==> size == 2048 * Pow2(2 * (code - 1))
    ensures (code == 0 || code > 4) ==> size == 0
  {
    assert Pow2(6) == 64 by {
      assert Pow2(3) == 8;
    }
    var sizes := [0, 2048, 8192, 32768, 131072];
    if code < |sizes| then sizes[code] else 0
  }

  /** No header code can announce more than 8 MiB of ROM or 128 KiB of RAM. */
  lemma SizesBounded(code: Byte)
    ensures 0 <= RomSize(code) <= 8 * 1024 * 1024
    ensures 0 <= RamSize(code) <= 128 * 1024
  {
  }

  /** `parseTitle`: the sixteen header bytes 0x134-0x143. */
  function ParseTitle(data: seq<Byte>): (title: seq<Byte>)
    requires |data| >= TitleEnd
    ensures |title| == 16
    ensures forall i :: 0 <= i < 16 ==> title[i] == data[TitleStart + i]
  {
    data[TitleStart..TitleEnd]
  }

  /** `LoadCartridge` once the file has been read into `data`. */
  function LoadCartridge(data: seq<Byte>): (r: LoadResult)
    ensures r.Loaded? <==> |data| >= HeaderEnd
    ensures r.Loaded? ==>
      && r.cart.rom == data
      && r.cart.title == data[TitleStart..TitleEnd]
      && r.cart.mbcType == data[MbcTypeOffset]
      && r.cart.romSize == RomSize(data[RomSizeOffset])
      && r.cart.ramSize == RamSize(data[RamSizeOffset])
  {
    if |data| < HeaderEnd then
      TooSmall
    else
      Loaded(Cartridge(
        rom := data,
        title := ParseTitle(data),
        mbcType := data[MbcTypeOffset],
        romSize := RomSize(data[RomSizeOffset]),
        ramSize := RamSize(data[RamSizeOffset])))
  }

  /** Decoding reads nothing past the header: two accepted images with the
      same first 0x150 bytes yield the same title, MBC type and sizes. */
  lemma LoadDependsOnlyOnHeader(d1: seq<Byte>, d2: seq<Byte>)
    requires |d1| >= HeaderEnd && |d2| >= HeaderEnd
    requires d1[..HeaderEnd] == d2[..HeaderEnd]
    ensures LoadCartridge(d1).cart.title == LoadCartridge(d2).cart.title
    ensures LoadCartridge(d1).cart.mbcType == LoadCartridge(d2).cart.mbcType
    ensures LoadCartridge(d1).cart.romSize == LoadCartridge(d2).cart.romSize
    ensures LoadCartridge(d1).cart.ramSize == LoadCartridge(d2).cart.ramSize
  {
    assert d1[TitleStart..TitleEnd] == d1[..HeaderEnd][TitleStart..TitleEnd];
    assert d2[TitleStart..TitleEnd] == d2[..HeaderEnd][TitleStart..TitleEnd];
    assert d1[MbcTypeOffset] == d1[..HeaderEnd][MbcTypeOffset];
    assert d1[RomSizeOffset] == d1[..HeaderEnd][RomSizeOffset];
    assert d1[RamSizeOffset] == d1[..HeaderEnd][RamSizeOffset];
  }

  /** A header-only image of 0x150 zero bytes is accepted as a 32 KiB ROM without RAM. */
  lemma ZeroHeaderLoads()
    ensures var r := LoadCartridge(seq(HeaderEnd, _ => 0));
      r.Loaded? && r.cart.mbcType == 0 && r.cart.romSize == 32768 && r.cart.ramSize == 0
  {
  }
}
