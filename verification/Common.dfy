/** Types that several modules share. */
module Common {
  datatype Option<T> = None | Some(value: T)

  /** 64-bit signed numbers. */
  type I64 = x: int | -0x8000_0000_0000_0000 <= x < 0x8000_0000_0000_0000

  /** Two's complement reduction to 64 bits. */
  function Wrap(x: int): I64 {
    var r := x % 0x1_0000_0000_0000_0000;
    if r >= 0x8000_0000_0000_0000 then r - 0x1_0000_0000_0000_0000 else r
  }
}
