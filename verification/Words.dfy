/** Fixed-width unsigned integers of the C sources and their wrap-around arithmetic. */
module Words {
  const TWO16: int := 0x1_0000
  const TWO32: int := 0x1_0000_0000

  type Byte = x: int | 0 <= x < 0x100
  type Half = x: int | 0 <= x < 0x1_0000
  type Word = x: int | 0 <= x < 0x1_0000_0000

  /** A clock reading in seconds; 0 marks "never" in the sources. */
  type Time = x: int | 0 < x witness 1

  /** `uint32_t` addition. */
  function Add32(x: Word, n: Word): Word {
    if x + n < TWO32 then x + n else x + n - TWO32
  }

  /** `uint32_t` subtraction. */
  function Sub32(x: Word, y: Word): Word {
    if y <= x then x - y else x - y + TWO32
  }

  /** `uint16_t` truncation of an `int` expression. */
  function Trunc16(x: int): Half {
    x % TWO16
  }
}
