// The fixed-width integers of the C++ sources, with every narrowing conversion written out.
module MachineInts {

  type Byte = x: int | 0 <= x < 256
  type SByte = x: int | -128 <= x < 128
  type Short = x: int | -0x8000 <= x < 0x8000
  type UShort = x: int | 0 <= x < 0x1_0000
  type ULong = x: int | 0 <= x < 0x1_0000_0000
  type Nibble = x: int | 0 <= x < 16

  // (short)x: keep the low sixteen bits, read as two's complement
  function ToShort(x: int): (s: Short)
    ensures -0x8000 <= x < 0x8000 ==> s == x
    ensures (x - s) % 0x1_0000 == 0
  {
    var low := x % 0x1_0000;
    if low < 0x8000 then low else low - 0x1_0000
  }

  // (signed char)x: keep the low eight bits, read as two's complement
  function ToSByte(x: int): (s: SByte)
    ensures -128 <= x < 128 ==> s == x
    ensures s % 256 == x % 256
  {
    var low := x % 256;
    if low < 128 then low else low - 256
  }

  // (unsigned short)x
  function ToUShort(x: int): (s: UShort)
    ensures 0 <= x < 0x1_0000 ==> s == x
    ensures (x - s) % 0x1_0000 == 0
  {
    x % 0x1_0000
  }

  // (unsigned long)x, thirty-two bits
  function ToULong(x: int): (s: ULong)
    ensures 0 <= x < 0x1_0000_0000 ==> s == x
    ensures (x - s) % 0x1_0000_0000 == 0
  {
    x % 0x1_0000_0000
  }
}
