/** Small shared vocabulary: optional values, results, and the integer and real
    arithmetic of the source language that the models need. */
module Basics {

  datatype Option<+T> = None | Some(value: T)

  datatype Result<+T, +E> = Ok(value: T) | Err(error: E)

  function Min(a: int, b: int): int { if a <= b then a else b }

  function Max(a: int, b: int): int { if a >= b then a else b }

  function Abs(a: int): nat { if a >= 0 then a else -a }

  function AbsReal(a: real): real { if a >= 0.0 then a else -a }

  function Clamp(a: int, lo: int, hi: int): int
    requires lo <= hi
  {
    if a < lo then lo else if a > hi then hi else a
  }

  /** `f64::round`: to the nearest integer, halves away from zero. */
  function Round(x: real): int {
    if x >= 0.0 then (x + 0.5).Floor else -((0.5 - x).Floor)
  }

  /** `f64::ceil`. */
  function Ceil(x: real): int { -((-x).Floor) }

  const I64_MIN: int := -0x8000_0000_0000_0000
  const I64_MAX: int := 0x7FFF_FFFF_FFFF_FFFF
  const U32_SIZE: int := 0x1_0000_0000
  const U64_SIZE: int := 0x1_0000_0000_0000_0000

  /** A float-to-i64 `as` cast, which saturates. */
  function SaturateI64(x: int): int { Clamp(x, I64_MIN, I64_MAX) }

  /** i64 addition as compiled in the release profile: two's complement wrap. */
  function WrapI64(x: int): int {
    (x - I64_MIN) % U64_SIZE + I64_MIN
  }

  lemma RoundWithinHalf(x: real)
    ensures AbsReal(Round(x) as real - x) <= 0.5
  {
  }

  /** Halves go away from zero, on both sides of it. */
  lemma RoundExactly(x: real)
    ensures x >= 0.0 ==> Round(x) as real - 0.5 <= x < Round(x) as real + 0.5
    ensures Round(-x) == -Round(x)
  {
  }

  lemma RoundMonotone(x: real, y: real)
    requires x <= y
    ensures Round(x) <= Round(y)
  {
  }

  lemma RoundOfInteger(i: int)
    ensures Round(i as real) == i
  {
  }

  /** `Vec::retain(|y| y != x)`. */
  function Without<T(==,!new)>(s: seq<T>, x: T): (r: seq<T>)
    ensures forall y :: y in r <==> y in s && y != x
    ensures |r| <= |s|
  {
    if s == [] then [] else
    var rest := Without(s[..|s| - 1], x);
    if s[|s| - 1] == x then rest else rest + [s[|s| - 1]]
  }
}
