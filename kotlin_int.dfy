/** Kotlin's 32-bit `Int`, whose arithmetic wraps around modulo 2^32. */
module KotlinInt {

  const MIN_VALUE: int := -0x8000_0000
  const MAX_VALUE: int := 0x7fff_ffff

  newtype int32 = x: int | -0x8000_0000 <= x < 0x8000_0000

  /** Reduces a mathematical integer to the two's-complement 32-bit value it wraps to. */
  function Wrap(x: int): (r: int32)
    ensures (r as int - x) % 0x1_0000_0000 == 0
    ensures MIN_VALUE <= x <= MAX_VALUE ==> r as int == x
  {
    var m := x % 0x1_0000_0000;
    if m < 0x8000_0000 then m as int32 else (m - 0x1_0000_0000) as int32
  }

  /** Kotlin `a * b` on `Int`. */
  function Times(a: int32, b: int32): (r: int32)
    ensures MIN_VALUE <= a as int * b as int <= MAX_VALUE ==> r as int == a as int * b as int
  {
    Wrap(a as int * b as int)
  }

  /** Kotlin `a - b` on `Int`. */
  function Minus(a: int32, b: int32): (r: int32)
    ensures MIN_VALUE <= a as int - b as int <= MAX_VALUE ==> r as int == a as int - b as int
  {
    Wrap(a as int - b as int)
  }

  lemma TimesCommutes(a: int32, b: int32)
    ensures Times(a, b) == Times(b, a)
  {
  }

  /** `Int.MIN_VALUE - 1` wraps around to `Int.MAX_VALUE`. */
  lemma MinusWrapsAtMinValue()
    ensures Minus(MIN_VALUE as int32, 1) as int == MAX_VALUE
  {
  }
}
