/**
 * Machine-level helpers shared by the model: the C unsigned 64-bit type with
 * its wrap-around arithmetic, C's truncating integer division, the (int)
 * cast of a double, and an Option type.
 */
module CTypes {

  const TWO_TO_THE_64: int := 0x1_0000_0000_0000_0000

  /** uint64_t (and unsigned long on the 64-bit Linux target). */
  type uint64 = x: int | 0 <= x < TWO_TO_THE_64

  datatype Option<T> = None | Some(value: T)

  /** Conversion of any integer to uint64_t, as C performs it: reduction modulo 2^64. */
  function ToU64(x: int): (r: uint64)
    ensures (r - x) % TWO_TO_THE_64 == 0
    ensures 0 <= x < TWO_TO_THE_64 ==> r == x
    ensures -TWO_TO_THE_64 <= x < 0 ==> r == x + TWO_TO_THE_64
  {
    x % TWO_TO_THE_64
  }

  /** Unsigned addition with wrap-around. */
  function Add64(a: uint64, b: uint64): (r: uint64)
    ensures a + b < TWO_TO_THE_64 ==> r == a + b
    ensures a + b >= TWO_TO_THE_64 ==> r == a + b - TWO_TO_THE_64
  {
    ToU64(a + b)
  }

  /** Unsigned subtraction with wrap-around: never negative. */
  function Sub64(a: uint64, b: uint64): (r: uint64)
    ensures b <= a ==> r == a - b
    ensures a < b ==> r == a - b + TWO_TO_THE_64
  {
    ToU64(a - b)
  }

  /** Unsigned multiplication with wrap-around. */
  function Mul64(a: uint64, b: uint64): (r: uint64)
    ensures a * b < TWO_TO_THE_64 ==> r == a * b
  {
    ToU64(a * b)
  }

  const TWO_TO_THE_32: int := 0x1_0000_0000

  /** The conversion of a long to int on the 64-bit Linux target: reduction into [-2^31, 2^31). */
  function ToI32(x: int): (r: int)
    ensures -TWO_TO_THE_32 / 2 <= r < TWO_TO_THE_32 / 2
    ensures (r - x) % TWO_TO_THE_32 == 0
    ensures -TWO_TO_THE_32 / 2 <= x < TWO_TO_THE_32 / 2 ==> r == x
  {
    (x + TWO_TO_THE_32 / 2) % TWO_TO_THE_32 - TWO_TO_THE_32 / 2
  }

  /** C's `/` on signed integers: the quotient is truncated toward zero. */
  function CDiv(a: int, b: int): (q: int)
    requires b > 0
    ensures a >= 0 ==> q == a / b
    ensures a < 0 ==> q == -((-a) / b)
  {
    if a >= 0 then a / b else -((-a) / b)
  }

  /** C's `%` on signed integers: the remainder has the sign of the dividend. */
  function CRem(a: int, b: int): (r: int)
    requires b > 0
    ensures a == CDiv(a, b) * b + r
    ensures a >= 0 ==> 0 <= r < b
    ensures a < 0 ==> -b < r <= 0
  {
    a - CDiv(a, b) * b
  }

  /** The `(int)` cast of a double: truncation toward zero. */
  function TruncToInt(x: real): (n: int)
    ensures x >= 0.0 ==> n as real <= x < n as real + 1.0
    ensures x < 0.0 ==> n as real - 1.0 < x <= n as real
  {
    if x >= 0.0 then x.Floor else -((-x).Floor)
  }

  function Min(a: int, b: int): int
  {
    if a <= b then a else b
  }

  function Max(a: int, b: int): int
  {
    if a >= b then a else b
  }

  /** The first n elements of s; nothing when n is not positive, all of s when n is large. */
  function Take<T>(s: seq<T>, n: int): (r: seq<T>)
    ensures |r| == Max(0, Min(n, |s|))
    ensures r <= s
  {
    if n <= 0 then [] else if n >= |s| then s else s[..n]
  }

  /** s without its first n elements. */
  function Drop<T>(s: seq<T>, n: int): (r: seq<T>)
    ensures |r| == |s| - Max(0, Min(n, |s|))
    ensures forall k :: 0 <= k < |r| ==> r[k] == s[k + Max(0, Min(n, |s|))]
  {
    if n <= 0 then s else if n >= |s| then [] else s[n..]
  }
}
