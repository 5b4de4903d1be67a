/**
 The 32-bit signed integers of the host language, and the two's-complement
 wrap-around that its unchecked `int` arithmetic performs.
 */
module Int32 {

  const Modulus: int := 0x1_0000_0000
  const MinValue: int := -0x8000_0000
  const MaxValue: int := 0x7FFF_FFFF

  newtype int32 = x: int | -0x8000_0000 <= x < 0x8000_0000

  /** The host's `uint` values. */
  type uint32 = x: int | 0 <= x <= 0xFFFF_FFFF

  /** The non-negative `int32` values: texture and screen extents. */
  type Extent = x: int | 0 <= x <= 0x7FFF_FFFF

  /** Reduces an unbounded integer to the `int32` it denotes modulo 2^32,
      which is what unchecked `int` addition and subtraction produce. */
  function Wrap(x: int): (r: int32)
    ensures (r as int - x) % Modulus == 0
  {
    ((x - MinValue) % Modulus + MinValue) as int32
  }

  /** Wrapping changes nothing for a value that already fits. */
  lemma WrapFits(x: int)
    requires MinValue <= x <= MaxValue
    ensures Wrap(x) as int == x
  {
    var m := x - MinValue;
    assert 0 <= m < Modulus;
    assert m % Modulus == m;
  }

  /** One past the largest value wraps to the smallest one. */
  lemma WrapOverflow()
    ensures Wrap(MaxValue + 1) as int == MinValue
  {
    assert (MaxValue + 1 - MinValue) % Modulus == 0;
  }

  /** One below the smallest value wraps to the largest one. */
  lemma WrapUnderflow()
    ensures Wrap(MinValue - 1) as int == MaxValue
  {
    assert (MinValue - 1 - MinValue) % Modulus == Modulus - 1;
  }

  /** Unchecked `x + 1`. */
  function Increment(x: int32): (r: int32)
    ensures r == Wrap(x as int + 1)
    ensures x as int < MaxValue ==> r as int == x as int + 1
    ensures x as int == MaxValue ==> r as int == MinValue
  {
    if x as int < MaxValue then
      WrapFits(x as int + 1);
      (x as int + 1) as int32
    else
      WrapOverflow();
      MinValue as int32
  }

  /** Unchecked `x - 1` (the `--` operator). */
  function Decrement(x: int32): (r: int32)
    ensures r == Wrap(x as int - 1)
    ensures x as int > MinValue ==> r as int == x as int - 1
    ensures x as int == MinValue ==> r as int == MaxValue
  {
    if x as int > MinValue then
      WrapFits(x as int - 1);
      (x as int - 1) as int32
    else
      WrapUnderflow();
      MaxValue as int32
  }
}
