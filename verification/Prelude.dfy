/** Shared vocabulary: optional values, Go's three ways out of a call, and 64-bit integers. */
module Prelude {

  datatype Option<+T> = None | Some(value: T)

  /** How a Go function ends: with a value, with a non-nil error, or with a run-time panic
      (the only panic in the modelled code is an index that is out of range). */
  datatype Outcome<+T> = Ok(value: T) | Err | Panic

  const MAX_INT64: int := 0x7FFF_FFFF_FFFF_FFFF
  const TWO_TO_64: int := 0x1_0000_0000_0000_0000

  /** Two's-complement wrap-around of Go's int64 addition. */
  function Wrap64(x: int): (r: int)
    ensures -MAX_INT64 - 1 <= r <= MAX_INT64
    ensures -MAX_INT64 - 1 <= x <= MAX_INT64 ==> r == x
  {
    (x + MAX_INT64 + 1) % TWO_TO_64 - MAX_INT64 - 1
  }

  /** Wrapping early and wrapping late agree, so a wrapped running sum is the wrap of the exact sum. */
  lemma WrapSum(a: int, b: int)
    ensures Wrap64(Wrap64(a) + b) == Wrap64(a + b)
  {
    var m := MAX_INT64 + 1;
    var k := (a + m) / TWO_TO_64;
    assert Wrap64(a) == a - k * TWO_TO_64;
    ModShift(a + b + m, k);
  }

  lemma ModShift(x: int, k: int)
    ensures (x - k * TWO_TO_64) % TWO_TO_64 == x % TWO_TO_64
  {
    var q := x / TWO_TO_64;
    var y := x - k * TWO_TO_64;
    assert y == (q - k) * TWO_TO_64 + x % TWO_TO_64;
  }
}
