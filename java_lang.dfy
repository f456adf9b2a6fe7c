/**
 * Java's fixed-width integer types and the operations on them that the
 * modelled code relies on: 64-bit wrap-around for `long` arithmetic and
 * division that truncates toward zero. Also the Result datatype that stands
 * for the exceptions and error returns of the modelled code.
 */
module JavaLang {

  const LONG_MIN: int := -0x8000_0000_0000_0000
  const LONG_MAX: int := 0x7FFF_FFFF_FFFF_FFFF
  const INT_MIN: int := -0x8000_0000
  const INT_MAX: int := 0x7FFF_FFFF

  /** A Java `long`. */
  type Long = x: int | LONG_MIN <= x <= LONG_MAX

  /** A Java `int`. */
  type Int32 = x: int | INT_MIN <= x <= INT_MAX

  /** The result of a Java `long` operation whose mathematical value is `x`
      (two's-complement wrap-around). */
  function Wrap64(x: int): (r: Long)
    ensures LONG_MIN <= x <= LONG_MAX ==> r == x
  {
    (x + 0x8000_0000_0000_0000) % 0x1_0000_0000_0000_0000 - 0x8000_0000_0000_0000
  }

  /** The result of a Java `int` operation whose mathematical value is `x`. */
  function Wrap32(x: int): (r: Int32)
    ensures INT_MIN <= x <= INT_MAX ==> r == x
  {
    (x + 0x8000_0000) % 0x1_0000_0000 - 0x8000_0000
  }

  const WORD64: int := 0x1_0000_0000_0000_0000
  const WORD32: int := 0x1_0000_0000

  /** A `long` result differs from the mathematical value by a multiple of
      2^64. */
  lemma Wrap64Congruent(x: int)
    ensures (Wrap64(x) - x) % WORD64 == 0
  {
  }

  /** An `int` result differs from the mathematical value by a multiple of
      2^32. */
  lemma Wrap32Congruent(x: int)
    ensures (Wrap32(x) - x) % WORD32 == 0
  {
  }

  /** An `int` value congruent to `x` modulo 2^32 is the wrapped `x`. */
  lemma Wrap32Unique(x: int, r: Int32)
    requires (r - x) % WORD32 == 0
    ensures Wrap32(x) == r
  {
    var w := Wrap32(x);
    Wrap32Congruent(x);
    var k, m := (w - x) / WORD32, (r - x) / WORD32;
    assert w - x == k * WORD32;
    assert r - x == m * WORD32;
    assert w - r == (k - m) * WORD32;
    if k - m >= 1 {
      MulMonotone(1, k - m, WORD32);
    } else if k - m <= -1 {
      MulMonotone(1, m - k, WORD32);
    }
  }

  /** Wrapping after every addition gives the same value as wrapping once. */
  lemma WrapAdd(a: int, b: int)
    ensures Wrap64(Wrap64(a) + b) == Wrap64(a + b)
  {
    var x := a + 0x8000_0000_0000_0000;
    ModAdd(x, b);
  }

  lemma ModAdd(x: int, b: int)
    ensures (x % WORD64 + b) % WORD64 == (x + b) % WORD64
  {
    var q := x / WORD64;
    assert x == q * WORD64 + x % WORD64;
  }

  /** Wrapping an intermediate `int` result before a multiply-add does not
      change the wrapped outcome. */
  lemma Wrap32MulAdd(x: int, m: int, c: int)
    ensures Wrap32(m * Wrap32(x) + c) == Wrap32(m * x + c)
  {
    var w := Wrap32(x);
    Wrap32Congruent(x);
    var k := (w - x) / WORD32;
    assert w == x + k * WORD32;
    var v := Wrap32(m * w + c);
    Wrap32Congruent(m * w + c);
    var j := (v - (m * w + c)) / WORD32;
    assert v == m * w + c + j * WORD32;
    assert m * w == m * x + (m * k) * WORD32;
    assert v - (m * x + c) == (j + m * k) * WORD32;
    Wrap32Unique(m * x + c, v);
  }

  /** Java's `/` on integers: the quotient truncated toward zero. */
  function Quot(a: int, b: int): (q: int)
    requires b > 0
    ensures a >= 0 ==> 0 <= a - q * b < b
    ensures a < 0 ==> -b < a - q * b <= 0
  {
    if a >= 0 then a / b else -((-a) / b)
  }

  lemma MulMonotone(x: int, y: int, b: int)
    requires x <= y && b >= 0
    ensures x * b <= y * b
  {
    var d := y - x;
    assert y * b == x * b + d * b;
  }

  /** Truncating division is monotone in the dividend. */
  lemma QuotMonotone(a: int, c: int, b: int)
    requires b > 0 && a <= c
    ensures Quot(a, b) <= Quot(c, b)
  {
    var qa, qc := Quot(a, b), Quot(c, b);
    if qa > qc {
      assert (qc + 1) * b == qc * b + b;
      MulMonotone(qc + 1, qa, b);
    }
  }

  /** Dividing an exact multiple gives the factor back. */
  lemma QuotExact(m: int, b: int)
    requires b > 0
    ensures Quot(m * b, b) == m
  {
    var q := Quot(m * b, b);
    if q < m {
      MulMonotone(q + 1, m, b);
    } else if q > m {
      assert (m + 1) * b == m * b + b;
      MulMonotone(m + 1, q, b);
    }
  }

  /** Stands for a Java reference that may be `null`. */
  datatype Option<+T> = None | Some(value: T)

  /** Stands for a Java exception or error return: `Err` carries the reason. */
  datatype Result<+T, +E> = Ok(value: T) | Err(error: E)
}
