/** Exact money: rounding half away from zero, basis points, and the machine
    forms the program runs. */
module Money {
  import Int64

  /** r is n/d rounded to the nearest integer, halves away from zero. */
  ghost predicate IsRounded(n: int, d: int, r: int) {
    && 2 * Int64.Abs(n - r * d) <= Int64.Abs(d)
    && (2 * Int64.Abs(n - r * d) == Int64.Abs(d) ==> Int64.Abs(r * d) > Int64.Abs(n))
  }

  /** money.divRound in exact integers. */
  function DivRound(n: int, d: int): (r: int)
    requires d != 0
  {
    if (n < 0) != (d < 0) then Int64.Quo(n - Int64.Quo(d, 2), d)
    else Int64.Quo(n + Int64.Quo(d, 2), d)
  }

  /** The closed form of each sign case, over positive divisors. */
  function RoundUp(n: int, d: int): (r: int)
    requires n >= 0 && d > 0
  {
    (n + d / 2) / d
  }

  lemma RoundUpRounds(n: int, d: int)
    requires n >= 0 && d > 0
    ensures RoundUp(n, d) >= 0
    ensures -d <= 2 * (n - RoundUp(n, d) * d) < d || d == 1
    ensures IsRounded(n, d, RoundUp(n, d))
  {
    var r := RoundUp(n, d);
    assert n + d / 2 == r * d + (n + d / 2) % d;
  }

  lemma QuoOverNegative(n: int, d: int)
    requires n >= 0 && d > 0
    ensures Int64.Quo(n, -d) == -(n / d)
    ensures Int64.Quo(-n, -d) == n / d
  {
    var q := n / (-d);
    assert n == q * (-d) + n % (-d);
    assert n == (n / d) * d + n % d;
  }

  lemma DivRoundCases(n: int, d: int)
    requires d != 0
    ensures DivRound(n, d) ==
            if (n < 0) == (d < 0) || n == 0 then RoundUp(Int64.Abs(n), Int64.Abs(d))
            else 0 - RoundUp(Int64.Abs(n), Int64.Abs(d))
  {
    var m: int, e: int := Int64.Abs(n), Int64.Abs(d);
    QuoOverNegative(m + e / 2, e);
    if n == 0 {
      assert (e / 2) / e == 0;
    }
  }

  lemma ZeroRoundsToZero(d: int)
    requires d > 0
    ensures RoundUp(0, d) == 0
  {
  }

  lemma DivRoundIsOdd(n: int, d: int)
    requires d != 0
    ensures DivRound(-n, d) == -DivRound(n, d)
  {
    DivRoundCases(n, d);
    DivRoundCases(-n, d);
    ZeroRoundsToZero(Int64.Abs(d));
  }

  lemma DivRoundIsRounded(n: int, d: int)
    requires d != 0
    ensures IsRounded(n, d, DivRound(n, d))
  {
    var m: int, e: int := Int64.Abs(n), Int64.Abs(d);
    DivRoundCases(n, d);
    RoundUpRounds(m, e);
    ZeroRoundsToZero(e);
    SignsCarry(m, e, RoundUp(m, e), n, d, DivRound(n, d));
  }

  lemma SignsCarry(m: int, e: int, k: int, n: int, d: int, r: int)
    requires m == Int64.Abs(n) && e == Int64.Abs(d) && IsRounded(m, e, k) && d != 0
    requires if (n < 0) == (d < 0) || n == 0 then r == k else r == 0 - k
    requires n == 0 ==> k == 0
    ensures IsRounded(n, d, r)
  {
    Negations(k, d);
    assert k * e == if d < 0 then -(k * d) else k * d;
    assert r * d == if n < 0 then -(k * e) else k * e;
  }

  lemma Negations(x: int, y: int)
    ensures x * -y == -(x * y) == (0 - x) * y
  {
  }

  /** Rounding is a function: the predicate leaves no second answer. */
  lemma RoundedIsUnique(n: int, d: int, r: int, t: int)
    requires d != 0 && IsRounded(n, d, r) && IsRounded(n, d, t)
    ensures r == t
  {
    var x, y := r * d, t * d;
    assert x - y == (r - t) * d;
    if r != t {
      // Two answers would have to lie half a divisor away on opposite sides,
      // and the one nearer zero breaks the tie rule.
      Int64.MulAtLeast(r - t, d);
      if r != 0 { Int64.MulAtLeast(r, d); }
      if t != 0 { Int64.MulAtLeast(t, d); }
    }
  }

  lemma MulLe(x: int, y: int, d: int)
    requires x <= y && d >= 0
    ensures x * d <= y * d
  {
  }

  /** The two inequalities every bound below is derived from. */
  lemma DivRoundBounds(n: int, d: int, k: int)
    requires d > 0
    ensures 2 * (DivRound(n, d) * d) - d <= 2 * n <= 2 * (DivRound(n, d) * d) + d
    ensures 2 * n > 2 * (k * d) - d ==> DivRound(n, d) >= k
    ensures 2 * n < 2 * (k * d) + d ==> DivRound(n, d) <= k
  {
    DivRoundIsRounded(n, d);
    Apart(DivRound(n, d), k, d);
    Apart(k, DivRound(n, d), d);
  }

  lemma Apart(x: int, y: int, d: int)
    requires d > 0
    ensures x < y ==> x * d + d <= y * d
  {
    if x < y {
      MulLe(x + 1, y, d);
      Int64.Distribute(x, 1, d);
    }
  }

  lemma DivRoundMonotone(n: int, m: int, d: int)
    requires d > 0 && n <= m
    ensures DivRound(n, d) <= DivRound(m, d)
  {
    DivRoundBounds(n, d, 0);
    DivRoundBounds(m, d, DivRound(n, d));
  }

  /** Amount.MulBP in exact integers. */
  function MulBP(minor: int, bp: int): int {
    DivRound(minor * bp, 10000)
  }

  lemma MulBPNegates(minor: int, bp: int)
    ensures MulBP(minor, -bp) == -MulBP(minor, bp) == MulBP(-minor, bp)
  {
    assert minor * -bp == -(minor * bp) == -minor * bp;
    DivRoundIsOdd(minor * bp, 10000);
  }

  /** Adding a percentage, even a negative one down to -100%, never reverses the
      order of two amounts: rounding cannot take back more than was added. */
  lemma AddPercentMonotone(x: int, y: int, bp: int)
    requires x <= y && bp >= -10000
    ensures x + MulBP(x, bp) <= y + MulBP(y, bp)
  {
    if x == y {
    } else if bp == -10000 {
      MulBPWhole(x);
      MulBPWhole(y);
    } else {
      PercentGap(x, y, bp);
      RoundedGap(x * bp, y * bp, y - x);
    }
  }

  lemma PercentGap(x: int, y: int, bp: int)
    requires x < y && bp > -10000
    ensures y * bp - x * bp + (y - x) * 10000 > 0
  {
    Int64.Distribute(y, x, bp);
    Int64.Distribute(bp, -10000, y - x);
    Int64.MulAtLeast(bp + 10000, y - x);
    ProductSign(bp + 10000, y - x);
  }

  lemma RoundedGap(p: int, q: int, gap: int)
    requires q - p + gap * 10000 > 0
    ensures DivRound(q, 10000) >= DivRound(p, 10000) - gap
  {
    DivRoundBounds(p, 10000, 0);
    DivRoundBounds(q, 10000, DivRound(p, 10000) - gap);
  }

  lemma MulBPWhole(x: int)
    ensures MulBP(x, -10000) == -x
  {
    DivRoundBounds(x * -10000, 10000, -x);
  }

  /** Multiplying by a non-negative factor preserves order through the rounding. */
  lemma MulBPMonotone(x: int, y: int, bp: int)
    requires x <= y && bp >= 0
    ensures MulBP(x, bp) <= MulBP(y, bp)
  {
    assert x * bp <= y * bp by { assert (y - x) * bp >= 0; }
    DivRoundMonotone(x * bp, y * bp, 10000);
  }

  /** divRound and MulBP as the machine runs them: every operation wraps. */
  function DivRoundMachine(n: int, d: int): (r: int)
    requires Int64.Fits(n) && Int64.Fits(d) && d != 0
    ensures Int64.Fits(r)
  {
    var half := Int64.Quo(d, 2);
    Int64.Wrap(Int64.Quo(if (n < 0) != (d < 0) then Int64.Wrap(n - half) else Int64.Wrap(n + half), d))
  }

  function MulBPMachine(minor: int, bp: int): (r: int)
    requires Int64.Fits(minor) && Int64.Fits(bp)
    ensures Int64.Fits(r)
  {
    match Int64.Mul(minor, bp)
    case Overflow => if (minor > 0) == (bp > 0) then Int64.MAX else Int64.MIN
    case Exact(product) => DivRoundMachine(if Int64.Fits(product) then product else 0, 10000)
  }

  /** A product in range is divided exactly when it is half a divisor or more from the
      limits; a product past the limits saturates on the side of its true sign, but for
      the one pair the overflow test misses. */
  lemma MulBPMachineExact(minor: int, bp: int)
    requires Int64.Fits(minor) && Int64.Fits(bp)
    ensures Int64.Fits(minor * bp) ==>
              (MulBPMachine(minor, bp) == MulBP(minor, bp)
               <==> Int64.MIN + 5000 <= minor * bp <= Int64.MAX - 5000)
    ensures minor * bp > Int64.MAX ==>
              (MulBPMachine(minor, bp) == Int64.MAX <==> !(minor == Int64.MIN && bp == -1))
    ensures minor * bp < Int64.MIN ==> MulBPMachine(minor, bp) == Int64.MIN
  {
    ProductSign(minor, bp);
    if minor == Int64.MIN && bp == -1 {
      assert Int64.Mul(minor, bp) == Int64.Exact(Int64.MIN);
      NearTheMinimum(Int64.MIN);
    } else {
      Int64.MulIsExactOrRefused(minor, bp);
      if Int64.Fits(minor * bp) {
        DivisionByTenThousand(minor * bp);
      }
    }
  }

  /** In the last half divisor before a limit the sum wraps to the other side. */
  lemma DivisionByTenThousand(n: int)
    requires Int64.Fits(n)
    ensures DivRoundMachine(n, 10000) == DivRound(n, 10000) <==> Int64.MIN + 5000 <= n <= Int64.MAX - 5000
  {
    if n > Int64.MAX - 5000 {
      NearTheMaximum(n);
    } else if n < Int64.MIN + 5000 {
      NearTheMinimum(n);
    } else {
      DivRoundMachineExact(n, 10000);
    }
  }

  lemma NearTheMaximum(n: int)
    requires Int64.MAX - 5000 < n <= Int64.MAX
    ensures DivRoundMachine(n, 10000) < 0 < DivRound(n, 10000)
  {
    assert Int64.Wrap(n + 5000) == n + 5000 - Int64.MODULUS;
  }

  lemma NearTheMinimum(n: int)
    requires Int64.MIN <= n < Int64.MIN + 5000
    ensures DivRound(n, 10000) < 0 < DivRoundMachine(n, 10000) < Int64.MAX
  {
    assert Int64.Wrap(n - 5000) == n - 5000 + Int64.MODULUS;
  }

  lemma ProductSign(x: int, y: int)
    ensures x * y > 0 ==> (x > 0) == (y > 0)
    ensures x * y < 0 ==> (x > 0) != (y > 0)
  {
  }

  /** For any divisor, a numerator half a divisor away from the limits is divided
      exactly; the one quotient that does not fit is the minimum over minus one. */
  lemma DivRoundMachineExact(n: int, d: int)
    requires Int64.Fits(d) && d != 0 && !(n == Int64.MIN && d == -1)
    requires Int64.MIN + Int64.Abs(d) / 2 <= n <= Int64.MAX - Int64.Abs(d) / 2
    ensures DivRoundMachine(n, d) == DivRound(n, d)
  {
    var half := Int64.Quo(d, 2);
    assert Int64.Abs(half) == Int64.Abs(d) / 2;
    Int64.QuotientFitsBut(n - half, d);
    Int64.QuotientFitsBut(n + half, d);
  }
}
