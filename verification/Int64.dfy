/** The 64-bit signed integers every amount is stored in. Amounts are modelled as unbounded
    integers and each place where the program's own arithmetic can leave the range wraps explicitly. */
module Int64 {
  const MAX := 0x7FFF_FFFF_FFFF_FFFF
  const MODULUS := 0x1_0000_0000_0000_0000

  function Least(a: int, b: int): int {
    if a <= b then a else b
  }

  function Greatest(a: int, b: int): int {
    if a >= b then a else b
  }

  predicate Fits(x: int) {
    -MAX - 1 <= x <= MAX
  }

  /** Two's complement wrap-around. */
  function Wrap(x: int): (r: int)
    ensures Fits(r)
    ensures Fits(x) ==> r == x
    ensures (r - x) % MODULUS == 0
  {
    var low := x % MODULUS;
    assert (low - x) % MODULUS == 0 by { assert low - x == -(x / MODULUS) * MODULUS; }
    assert (low - MODULUS - x) % MODULUS == 0 by { assert low - MODULUS - x == (-(x / MODULUS) - 1) * MODULUS; }
    if low <= MAX then low else low - MODULUS
  }

  /** Wrapping identifies exactly the integers that differ by a multiple of the modulus. */
  lemma WrapEqual(x: int, y: int)
    ensures Wrap(x) == Wrap(y) <==> (x - y) % MODULUS == 0
  {
    if (x - y) % MODULUS == 0 {
      var k := (x - y) / MODULUS;
      assert x == y + k * MODULUS;
      assert x % MODULUS == y % MODULUS;
    } else {
      var a, b := (Wrap(x) - x) / MODULUS, (Wrap(y) - y) / MODULUS;
      assert Wrap(x) - x == a * MODULUS && Wrap(y) - y == b * MODULUS;
      assert Wrap(x) == Wrap(y) ==> x - y == (b - a) * MODULUS;
    }
  }

  /** Integer division as the program performs it: truncated toward zero. */
  function Quotient(a: int, b: int): int
    requires b > 0
  {
    if a >= 0 then a / b else -((-a) / b)
  }
}
