/**
 * Shared vocabulary of the two NVFUSE harnesses: the constants they use,
 * an Option type for oracles that may return nothing, and the C integer
 * operations whose behaviour differs from Dafny's (truncating division,
 * 32-bit wrap-around).
 */
module Base {

  datatype Option<+T> = None | Some(value: T)

  /** Upper bound of requests admitted per fill round (`MAX_AIO_CTX`). */
  const MAX_AIO_CTX: nat := 256

  /** Size of one storage cluster in bytes (`CLUSTER_SIZE`). */
  const CLUSTER_SIZE: nat := 4096

  const MB: nat := 1024 * 1024
  const GB: nat := 1024 * MB
  const TB: nat := 1024 * GB

  /** All-ones value of an unsigned 64-bit counter (`~0`). */
  const U64_MAX: nat := 0xFFFF_FFFF_FFFF_FFFF

  type U64 = x: nat | x <= U64_MAX

  const S32_MIN: int := -0x8000_0000
  const S32_MAX: int := 0x7FFF_FFFF

  function Min(a: int, b: int): (r: int)
    ensures r <= a && r <= b && (r == a || r == b)
  {
    if a < b then a else b
  }

  function Max(a: int, b: int): (r: int)
    ensures r >= a && r >= b && (r == a || r == b)
  {
    if a < b then b else a
  }

  function Abs(a: int): (r: nat)
    ensures r == a || r == -a
  {
    if a < 0 then -a else a
  }

  /** C's `/` on integers: the quotient is truncated toward zero. */
  function CDiv(a: int, b: int): (q: int)
    requires b != 0
    ensures a >= 0 && b > 0 ==> q == a / b
    ensures a < 0 && b > 0 ==> q == -((-a) / b)
  {
    if (a < 0) != (b < 0) then -(Abs(a) / Abs(b)) else Abs(a) / Abs(b)
  }

  /** C's `%` on integers: the remainder takes the sign of the dividend. */
  function CRem(a: int, b: int): (r: int)
    requires b != 0
    ensures a >= 0 && b > 0 ==> r == a % b
    ensures a < 0 && b > 0 ==> r == -((-a) % b)
  {
    a - b * CDiv(a, b)
  }

  /** The value a 32-bit two's-complement register holds after computing `x`. */
  function WrapS32(x: int): (r: int)
    ensures S32_MIN <= r <= S32_MAX
    ensures (r - x) % 0x1_0000_0000 == 0
    ensures S32_MIN <= x <= S32_MAX ==> r == x
  {
    (x - S32_MIN) % 0x1_0000_0000 + S32_MIN
  }
}
