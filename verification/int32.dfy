/** C#'s `int`: 32-bit two's complement, with the wrap-around of unchecked arithmetic (the C# default). */
module Int32 {
  const MIN: int := -0x8000_0000
  const MAX: int := 0x7fff_ffff
  const MODULUS: int := 0x1_0000_0000

  type i32 = x: int | MIN <= x <= MAX

  predicate InRange(x: int) {
    MIN <= x <= MAX
  }

  /** The value an unchecked C# `int` operation stores when its exact result is `x`. */
  function Wrap(x: int): (r: i32)
    ensures InRange(x) ==> r == x
    ensures x == MAX + 1 ==> r == MIN
  {
    (x - MIN) % MODULUS + MIN
  }
}
