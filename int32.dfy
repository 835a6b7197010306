/**
 * Kotlin `Int` arithmetic: 32-bit two's complement, where `+` and `Long.toInt()`
 * wrap around silently.
 */
module Int32 {

  const Modulus: int := 0x1_0000_0000
  const Min: int := -0x8000_0000
  const Max: int := 0x7fff_ffff

  /** The values a Kotlin `Int` can hold. */
  type Int = x: int | Min <= x <= Max

  /** The `Int` with the same low 32 bits as `x` (`Long.toInt()`, and the result of an overflowing `+`). */
  function Wrap(x: int): (r: Int)
    ensures (x - r) % Modulus == 0
    ensures Min <= x <= Max ==> r == x
  {
    (x - Min) % Modulus + Min
  }

  /** Kotlin's `a + b` on two `Int`s. */
  function Add(a: Int, b: Int): Int {
    Wrap(a + b)
  }

  /** The mathematical sum of a sequence. */
  function Sum(xs: seq<int>): int {
    if xs == [] then 0 else Sum(xs[..|xs| - 1]) + xs[|xs| - 1]
  }

  /** What `var total = 0; for (x in xs) total += x` leaves in `total` when `total` is an `Int`. */
  function WrappingSum(xs: seq<Int>): Int {
    if xs == [] then 0 else Add(WrappingSum(xs[..|xs| - 1]), xs[|xs| - 1])
  }

  /** Wrapping once at the end is the same as wrapping after every step. */
  lemma WrapOfWrapAdd(a: int, b: int)
    ensures Wrap(Wrap(a) + b) == Wrap(a + b)
  {
    var q := (a - Min) / Modulus;
    assert a - Min == q * Modulus + (a - Min) % Modulus;
    assert Wrap(a) + b - Min == (a + b - Min) - q * Modulus;
    ModShift(a + b - Min, q);
  }

  lemma ModShift(x: int, q: int)
    ensures (x - q * Modulus) % Modulus == x % Modulus
  {
    var r := x % Modulus;
    var d := x / Modulus;
    assert x == d * Modulus + r;
    assert x - q * Modulus == (d - q) * Modulus + r;
  }

  /** An `Int` running total is the true total reduced to 32 bits. */
  lemma {:induction false} WrappingSumIsWrappedSum(xs: seq<Int>)
    ensures WrappingSum(xs) == Wrap(Sum(xs))
  {
    if xs != [] {
      var init := xs[..|xs| - 1];
      WrappingSumIsWrappedSum(init);
      WrapOfWrapAdd(Sum(init), xs[|xs| - 1]);
    }
  }

  /** When the true total fits in an `Int`, the running total is exact. */
  lemma WrappingSumExact(xs: seq<Int>)
    requires Min <= Sum(xs) <= Max
    ensures WrappingSum(xs) == Sum(xs)
  {
    WrappingSumIsWrappedSum(xs);
  }

  lemma SumAppend(xs: seq<int>, x: int)
    ensures Sum(xs + [x]) == Sum(xs) + x
  {
    assert (xs + [x])[..|xs + [x]| - 1] == xs;
  }

  lemma WrappingSumAppend(xs: seq<Int>, x: Int)
    ensures WrappingSum(xs + [x]) == Add(WrappingSum(xs), x)
  {
    assert (xs + [x])[..|xs + [x]| - 1] == xs;
  }
}
