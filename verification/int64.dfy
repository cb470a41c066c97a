/** Go's signed 64-bit arithmetic: wrap-around, division toward zero, and the
    overflow tests of internal/money written in terms of both. */
module Int64 {

  const MIN: int := -0x8000_0000_0000_0000
  const MAX: int := 0x7FFF_FFFF_FFFF_FFFF
  const MODULUS: int := 0x1_0000_0000_0000_0000

  predicate Fits(x: int) {
    MIN <= x <= MAX
  }

  /** What a 64-bit register holds after computing x. */
  function Wrap(x: int): (r: int)
    ensures Fits(r)
    ensures Fits(x) ==> r == x
  {
    (x - MIN) % MODULUS + MIN
  }

  /** Exact quotient truncated toward zero. */
  function Quo(n: int, d: int): (q: int)
    requires d != 0
  {
    if n >= 0 then n / d else -(-n / d)
  }

  function Abs(x: int): nat {
    if x < 0 then -x else x
  }

  lemma QuoRemainder(n: int, d: int)
    requires d != 0
    ensures Abs(n - Quo(n, d) * d) < Abs(d)
  {
    if n >= 0 {
      assert n == (n / d) * d + n % d;
    } else {
      assert -n == (-n / d) * d + (-n) % d;
    }
  }

  datatype Checked = Exact(value: int) | Overflow

  /** money.mul: multiply, then divide back to see whether the product wrapped. */
  function Mul(a: int, b: int): Checked
    requires Fits(a) && Fits(b)
  {
    if a == 0 || b == 0 then Exact(0)
    else
      var product := Wrap(a * b);
      if Wrap(Quo(product, b)) != a then Overflow else Exact(product)
  }

  lemma WrapOffset(x: int) returns (k: int)
    ensures Wrap(x) == x + k * MODULUS
    ensures !Fits(x) ==> k != 0
  {
    k := -((x - MIN) / MODULUS);
  }

  /** A product that wrapped is off by at least 2^64, far more than a divisor. */
  lemma OverflowedQuotientDiffers(a: int, b: int)
    requires Fits(a) && Fits(b) && b != 0 && !Fits(a * b)
    ensures Quo(Wrap(a * b), b) != a
  {
    var k := WrapOffset(a * b);
    QuoRemainder(Wrap(a * b), b);
    assert Abs(k * MODULUS) >= MODULUS;
  }

  /** The overflow test is right for every pair but one: the minimum times -1
      wraps back to itself and the division that should notice wraps too. */
  lemma MulIsExactOrRefused(a: int, b: int)
    requires Fits(a) && Fits(b)
    ensures Mul(a, b) == (if Fits(a * b) then Exact(a * b) else Overflow)
       <==> !(a == MIN && b == -1)
  {
    if a == 0 || b == 0 {
    } else if Fits(a * b) {
      QuoExact(a, b);
    } else {
      OverflowedQuotientDiffers(a, b);
      var p := Wrap(a * b);
      if a == MIN && b == -1 {
        assert p == MIN;
      } else {
        QuotientFits(p, a, b);
      }
    }
  }

  lemma QuoExact(a: int, b: int)
    requires b != 0
    ensures Quo(a * b, b) == a
  {
    QuoRemainder(a * b, b);
    var q := Quo(a * b, b);
    assert a * b - q * b == (a - q) * b;
    if a != q {
      MulAtLeast(a - q, b);
    }
  }

  lemma MulAtLeast(x: int, y: int)
    requires x != 0
    ensures Abs(x * y) >= Abs(y)
  {
    if x > 0 && y >= 0 { assert x * y >= y; }
    else if x > 0 { assert x * y <= y; }
    else if y >= 0 { assert x * y <= -y; }
    else { assert x * y >= -y; }
  }

  /** Outside the one exception the divide-back either fits, or wraps to the
      minimum without matching the factor. */
  lemma QuotientFits(p: int, a: int, b: int)
    requires Fits(p) && Fits(a) && Fits(b) && b != 0
    requires !(a == MIN && b == -1)
    requires Quo(p, b) != a
    ensures Wrap(Quo(p, b)) != a
  {
    var q := Quo(p, b);
    if p == MIN && b == -1 {
      assert q == -MIN && Wrap(q) == MIN;
    } else {
      QuoRemainder(p, b);
      if b == 1 || b == -1 {
        assert Fits(q);
      } else {
        QuoShrinks(p, b);
      }
    }
  }

  lemma AbsMul(x: int, y: int)
    ensures Abs(x * y) == Abs(x) * Abs(y)
  {
  }

  lemma Distribute(x: int, y: int, z: int)
    ensures (x - y) * z == x * z - y * z
    ensures (x + y) * z == x * z + y * z
  {
  }

  lemma QuoShrinks(p: int, b: int)
    requires b != 0
    ensures Abs(Quo(p, b)) <= Abs(p)
  {
    var q := Quo(p, b);
    QuoRemainder(p, b);
    AbsMul(q, b);
    ShrinkBy(Abs(q), Abs(b), Abs(p));
  }

  lemma ShrinkBy(q: nat, b: nat, p: nat)
    requires b >= 1 && q * b - p < b
    ensures q <= p
  {
    if q >= 1 {
      assert (q - 1) * b == q * b - b;
      assert (q - 1) * b >= q - 1;
    }
  }

  lemma QuotientFitsBut(p: int, b: int)
    requires Fits(p) && b != 0 && !(p == MIN && b == -1)
    ensures Fits(Quo(p, b))
  {
    QuoShrinks(p, b);
    QuoRemainder(p, b);
  }

  /** Amount.Add on the minor units: detects wrap by the operands' signs. */
  function Add(a: int, b: int): Checked
    requires Fits(a) && Fits(b)
  {
    var sum := Wrap(a + b);
    if (a > 0 && b > 0 && sum < 0) || (a < 0 && b < 0 && sum > 0) then Overflow
    else Exact(sum)
  }

  /** The sign test misses exactly one pair: the minimum added to itself wraps
      to zero, which is not a positive sum. */
  lemma AddIsExactOrRefused(a: int, b: int)
    requires Fits(a) && Fits(b)
    ensures Add(a, b) == (if Fits(a + b) then Exact(a + b) else Overflow)
       <==> !(a == MIN && b == MIN)
  {
    var k := WrapOffset(a + b);
    assert MODULUS == 2 * (MAX + 1);
    if a + b > MAX {
      assert Wrap(a + b) == a + b - MODULUS;
    } else if a + b < MIN {
      assert Wrap(a + b) == a + b + MODULUS;
    }
  }
}
