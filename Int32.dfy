/** Kotlin `Int` arithmetic: 32-bit two's complement with silent wrap-around. */
module Int32 {

  const INT_MIN: int := -0x8000_0000
  const INT_MAX: int := 0x7fff_ffff
  const MODULUS: int := 0x1_0000_0000

  predicate IsInt(x: int) {
    INT_MIN <= x <= INT_MAX
  }

  /** The Int that an exact result `x` wraps to. */
  function Wrap(x: int): (r: int)
    ensures IsInt(r)
    ensures (r - x) % MODULUS == 0
    ensures IsInt(x) ==> r == x
  {
    (x - INT_MIN) % MODULUS + INT_MIN
  }

  /** `a * b` on Kotlin Ints. */
  function Mul(a: int, b: int): (r: int)
    ensures IsInt(r)
    ensures (r - a * b) % MODULUS == 0
    ensures IsInt(a * b) ==> r == a * b
  {
    Wrap(a * b)
  }

  /** `x++` on a Kotlin Int: one more, except that Int.MAX_VALUE wraps to Int.MIN_VALUE. */
  function Inc(x: int): (r: int)
    requires IsInt(x)
    ensures IsInt(r)
    ensures x < INT_MAX ==> r == x + 1
    ensures x == INT_MAX ==> r == INT_MIN
  {
    Wrap(x + 1)
  }
}
