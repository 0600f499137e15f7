/** The signed 64-bit integers in which Go keeps durations and Unix times. */
module Int64 {
  const MAX: int := 0x7FFF_FFFF_FFFF_FFFF
  const MIN: int := -0x8000_0000_0000_0000

  type Int64 = x: int | MIN <= x <= MAX

  /** A time.Duration, in nanoseconds. */
  type Duration = Int64

  function Wrap(x: int): Int64 {
    var m := x % 0x1_0000_0000_0000_0000;
    if m > MAX then m - 0x1_0000_0000_0000_0000 else m
  }

  /** What does not fit stops at the nearest end, as in time.Time.Sub. */
  function Clamp(x: int): Int64 {
    if x > MAX then MAX else if x < MIN then MIN else x
  }

  function Max(a: int, b: int): int {
    if a >= b then a else b
  }
}
