/**
 * Java `int` and `long` arithmetic on Dafny's unbounded integers.
 *
 * Java `int` is 32-bit two's complement: `+`, `-`, `*` and `<<` wrap
 * around, `>>` is an arithmetic shift (rounds toward minus infinity), `/`
 * truncates toward zero and `%` takes the sign of the dividend.  Dafny's
 * `/` and `%` are Euclidean, so each Java operator is written out here.
 */
module JavaInt {

  const MIN_INT: int := -0x8000_0000
  const MAX_INT: int := 0x7fff_ffff
  const TWO_32: int := 0x1_0000_0000

  type Int32 = x: int | -0x8000_0000 <= x <= 0x7fff_ffff
  type Int64 = x: int | -0x8000_0000_0000_0000 <= x <= 0x7fff_ffff_ffff_ffff

  /** Two's-complement wrap-around of an exact result into the `int` range. */
  function Wrap(x: int): (r: Int32)
    ensures (r - x) % TWO_32 == 0
    ensures MIN_INT <= x <= MAX_INT ==> r == x
  {
    (x - MIN_INT) % TWO_32 + MIN_INT
  }

  /** Java `a + b` on `int`. */
  function Add(a: Int32, b: Int32): Int32 { Wrap(a + b) }

  /** Java `a * b` on `int`. */
  function Mul(a: Int32, b: Int32): Int32 { Wrap(a * b) }

  /** 2 to the power `k`. */
  function Pow2(k: nat): (r: nat)
    ensures r >= 1
  {
    if k == 0 then 1 else 2 * Pow2(k - 1)
  }

  /** Java `a >> k` (arithmetic shift): floor(a / 2^k). */
  function Shr(a: int, k: nat): (r: int)
    ensures a >= 0 ==> 0 <= r <= a
    ensures a < 0 ==> a <= r < 0
  {
    FloorDivBounds(a, Pow2(k));
    a / Pow2(k)
  }

  /** Floor division by a positive number moves towards zero without crossing it. */
  lemma FloorDivBounds(a: int, p: int)
    requires p >= 1
    ensures a >= 0 ==> 0 <= a / p <= a
    ensures a < 0 ==> a <= a / p < 0
  {
    QuotientBounds(a, p, a / p, a % p);
  }

  /** A floor quotient by a positive divisor lies between 0 and the dividend. */
  lemma QuotientBounds(a: int, p: int, q: int, r: int)
    requires p >= 1 && a == q * p + r && 0 <= r < p
    ensures a >= 0 ==> 0 <= q <= a
    ensures a < 0 ==> a <= q < 0
  {
    if q < 0 {
      MulMono(q, 0, p);
      MulNonNeg(-q, p - 1);
      assert q * p == q - (-q) * (p - 1);
    } else {
      MulNonNeg(q, p - 1);
      assert q * p == q + q * (p - 1);
    }
  }

  /** A product of non-negative numbers is non-negative. */
  lemma MulNonNeg(x: int, d: int)
    requires x >= 0 && d >= 0
    ensures x * d >= 0
  {}

  /** Multiplying by a positive `d` keeps a gap of at least `d`. */
  lemma MulMono(x: int, y: int, d: int)
    requires d > 0 && x < y
    ensures x * d + d <= y * d
  {
    MulNonNeg(y - x - 1, d);
    assert y * d == x * d + (y - x - 1) * d + d;
  }

  /** Division with remainder is unique. */
  lemma DivUnique(a: int, d: int, q: int, r: int)
    requires d > 0 && a == q * d + r && 0 <= r < d
    ensures a / d == q && a % d == r
  {
    var q0, r0 := a / d, a % d;
    assert a == q0 * d + r0;
    if q0 < q {
      MulMono(q0, q, d);
    } else if q0 > q {
      MulMono(q, q0, d);
    }
  }

  function Abs(x: int): (r: nat)
    ensures r == x || r == -x
  {
    if x >= 0 then x else -x
  }

  /** Java `a % m` for a positive divisor: the remainder takes the sign of `a`. */
  function Rem(a: int, m: int): (r: int)
    requires m > 0
    ensures a >= 0 ==> r == a % m
    ensures a < 0 ==> -m < r <= 0 && r == -((-a) % m)
  {
    if a >= 0 then a % m else -((-a) % m)
  }

  /** Java `a / b` on `int`: truncates toward zero; MIN_INT / -1 wraps to MIN_INT. */
  function Div(a: Int32, b: Int32): (r: Int32)
    requires b != 0
  {
    var m := Abs(b);
    var na: int := -(a as int);
    var q: int := if a >= 0 then a / m else -(na / m);
    Wrap(if b > 0 then q else -q)
  }

  /** Guava's `Ints.constrainToRange(value, lo, hi)`. */
  function Clamp(value: int, lo: int, hi: int): (r: int)
    requires lo <= hi
    ensures lo <= r <= hi
    ensures lo <= value <= hi ==> r == value
    ensures value < lo ==> r == lo
    ensures value > hi ==> r == hi
  {
    if value < lo then lo else if value > hi then hi else value
  }

  /** Wrapping an operand before adding does not change the wrapped sum. */
  lemma WrapAdd(x: int, y: int)
    ensures Wrap(Wrap(x) + y) == Wrap(x + y)
  {
    var a := Wrap(x);
    assert (a - x) % TWO_32 == 0;
    ModShift(x - MIN_INT, a - x);
  }

  /** Adding a multiple of 2^32 does not change the remainder modulo 2^32. */
  lemma ModShift(u: int, d: int)
    requires d % TWO_32 == 0
    ensures (u + d) % TWO_32 == u % TWO_32
  {
    var k := d / TWO_32;
    assert d == k * TWO_32;
    DivUnique(u + d, TWO_32, u / TWO_32 + k, u % TWO_32);
  }
}
