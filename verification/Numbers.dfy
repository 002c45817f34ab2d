/** Fixed-width integers. */
module Numbers {

  datatype Option<T> = None | Some(value: T)

  const TWO32 := 0x1_0000_0000
  const TWO64 := 0x1_0000_0000_0000_0000

  type U32 = x: int | 0 <= x < 0x1_0000_0000
  type U64 = x: int | 0 <= x < 0x1_0000_0000_0000_0000

  /** The number of values of a 64-bit (`wide`) or 32-bit integer. */
  function Span(wide: bool): int { if wide then 0x1_0000_0000_0000_0000 else 0x1_0000_0000 }

  /** An integer reduced to 64 (`wide`) or 32 bits. */
  function Wrap(x: int, wide: bool): (r: int)
    ensures 0 <= r < Span(wide)
  {
    if wide then x % 0x1_0000_0000_0000_0000 else x % 0x1_0000_0000
  }

  /** The two's complement value of an unsigned number of 64 or 32 bits. */
  function SInt(x: int, wide: bool): int { if 2 * x >= Span(wide) then x - Span(wide) else x }

  function Abs(a: int): nat { if a >= 0 then a else -a }

  /** Division rounding towards zero. */
  function TruncDiv(a: int, b: int): int
    requires b != 0
  {
    if (a >= 0) == (b > 0) then Abs(a) / Abs(b) else -(Abs(a) / Abs(b))
  }

  lemma DivNat(x: nat, y: nat)
    requires y > 0
    ensures 0 <= x - (x / y) * y < y
  {
    assert x == (x / y) * y + x % y;
  }

  lemma Negate(q: int, y: int)
    ensures (-q) * (-y) == q * y && (-q) * y == -(q * y) && q * (-y) == -(q * y)
  {}

  lemma Signs(a: int, b: int, q: int)
    requires b != 0 && TruncDiv(a, b) == (if (a >= 0) == (b > 0) then q else -q)
    ensures TruncDiv(a, b) * b == if a >= 0 then q * Abs(b) else -(q * Abs(b))
  {
    Negate(q, Abs(b));
  }

  /** What truncated division is: the remainder is smaller than the divisor and has the sign of the dividend. */
  lemma TruncDivMeaning(a: int, b: int)
    requires b != 0
    ensures Abs(a - TruncDiv(a, b) * b) < Abs(b)
    ensures a - TruncDiv(a, b) * b == 0 || (a - TruncDiv(a, b) * b > 0) == (a > 0)
  {
    DivNat(Abs(a), Abs(b));
    Signs(a, b, Abs(a) / Abs(b));
  }
}
