/** Shared vocabulary of the firmware model: the optional value, the fixed
    widths of the integer types the firmware uses, and the small arithmetic
    helpers (the `NOLESS`/`NOMORE`/`constrain` family of macros). */
module Base {

  /** The conventional optional value. */
  datatype Option<+T> = None | Some(value: T)

  /** Unsigned and signed integer types of the AVR/ARM firmware, as ranges. */
  type u8 = x: int | 0 <= x < 0x100
  type u16 = x: int | 0 <= x < 0x1_0000
  type u32 = x: int | 0 <= x < 0x1_0000_0000
  type i8 = x: int | -0x80 <= x < 0x80
  type i16 = x: int | -0x8000 <= x < 0x8000
  type i32 = x: int | -0x8000_0000 <= x < 0x8000_0000

  /** Assignment to an 8/16/32-bit unsigned variable keeps the low bits. */
  function Wrap8(x: int): u8 { x % 0x100 }
  function Wrap16(x: int): u16 { x % 0x1_0000 }
  function Wrap32(x: int): u32 { x % 0x1_0000_0000 }

  /** Reinterpreting a byte as `int8_t` (two's complement). */
  function ToInt8(b: u8): i8 { if b < 0x80 then b else b - 0x100 }

  function Min(a: int, b: int): int { if a <= b then a else b }
  function Max(a: int, b: int): int { if a >= b then a else b }
  function MinR(a: real, b: real): real { if a <= b then a else b }
  function MaxR(a: real, b: real): real { if a >= b then a else b }
  function AbsR(a: real): real { if a < 0.0 then -a else a }

  /** `constrain(v, lo, hi)`. */
  function Clamp(v: int, lo: int, hi: int): int
  {
    if v < lo then lo else if v > hi then hi else v
  }

  function Pow2(k: nat): nat
    ensures Pow2(k) >= 1
  {
    if k == 0 then 1 else 2 * Pow2(k - 1)
  }

  /** `x >> k` on a non-negative integer is division by 2^k, and shifting
      one bit at a time composes. */
  lemma {:induction false} ShiftStep(x: nat, k: nat)
    ensures x / Pow2(k) / 2 == x / Pow2(k + 1)
  {
    var p := Pow2(k);
    var q := x / p;
    var r := x % p;
    var q2 := q / 2;
    var r2 := q % 2;
    assert x == q2 * (2 * p) + (r2 * p + r) by {
      assert x == q * p + r;
      assert q == q2 * 2 + r2;
      assert (q2 * 2 + r2) * p == q2 * (2 * p) + r2 * p;
    }
    assert 0 <= r2 * p + r < 2 * p by {
      assert 0 <= r < p;
      assert r2 == 0 || r2 == 1;
    }
    DivUnique(x, 2 * p, q2, r2 * p + r);
  }

  /** Euclidean division is determined by quotient and remainder. */
  lemma DivUnique(x: int, d: int, q: int, r: int)
    requires d > 0 && 0 <= r < d && x == q * d + r
    ensures x / d == q
  {
    var q0 := x / d;
    var r0 := x % d;
    assert q0 * d + r0 == q * d + r;
    var k := q0 - q;
    assert k * d == r - r0 by {
      assert k * d == q0 * d - q * d;
    }
    if k >= 1 {
      MulAtLeast(k, d);
    } else if k <= -1 {
      MulAtLeast(-k, d);
    }
  }

  lemma MulAtLeast(k: int, d: int)
    requires k >= 1 && d > 0
    ensures k * d >= d
  {
    assert k * d == (k - 1) * d + d;
    assert (k - 1) * d >= 0;
  }
}
