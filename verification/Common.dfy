// Machine integers, byte order and the option type shared by every component.
module Common {
  type byte = x: int | 0 <= x < 0x100
  type u16 = x: int | 0 <= x < 0x1_0000
  type u32 = x: int | 0 <= x < TWO32
  type u64 = x: int | 0 <= x < TWO64

  const TWO32: int := 0x1_0000_0000
  const TWO64: int := 0x1_0000_0000_0000_0000
  const MAX32: u32 := 0xFFFF_FFFF

  datatype Option<+T> = None | Some(value: T)

  /** Concatenation needs no parentheses. */
  lemma {:induction false} Associative<T>(x: seq<T>, y: seq<T>, z: seq<T>)
    ensures x + y + z == x + (y + z)
  {
  }

  /** Addition of u32 values in a release build: the carry out of bit 31 is lost. */
  function Add32(x: u32, y: int): (r: u32)
    requires 0 <= y
  {
    (x + y) % TWO32
  }

  /** The two bytes of a word, most significant first. */
  function Be16(x: u16): (b: seq<byte>)
    ensures |b| == 2
  {
    [x / 0x100, x % 0x100]
  }

  /** The two bytes of a word, least significant first. */
  function Le16(x: u16): (b: seq<byte>)
    ensures |b| == 2
  {
    [x % 0x100, x / 0x100]
  }

  function Be32(x: u32): (b: seq<byte>)
    ensures |b| == 4
  {
    Be16(x / 0x1_0000) + Be16(x % 0x1_0000)
  }

  function FromBe16(hi: byte, lo: byte): u16 {
    0x100 * hi + lo
  }

  function FromLe16(lo: byte, hi: byte): u16 {
    0x100 * hi + lo
  }

  function FromBe32(a: byte, b: byte, c: byte, d: byte): u32 {
    0x1_0000 * FromBe16(a, b) + FromBe16(c, d)
  }
}
