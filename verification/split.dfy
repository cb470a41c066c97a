/** Amount.SplitProRata: the largest-remainder apportionment of an amount. */
module Split {
  import Int64

  function Sum(xs: seq<int>): int {
    if xs == [] then 0 else Sum(xs[..|xs| - 1]) + xs[|xs| - 1]
  }

  predicate NonNegative(weights: seq<int>) {
    forall i | 0 <= i < |weights| :: weights[i] >= 0
  }

  /** The whole units index i is owed, and what is left of its exact share. */
  function Share(m: int, weights: seq<int>, i: nat): int
    requires i < |weights| && Sum(weights) > 0
  {
    m * weights[i] / Sum(weights)
  }

  function Rest(m: int, weights: seq<int>, i: nat): int
    requires i < |weights| && Sum(weights) > 0
  {
    m * weights[i] % Sum(weights)
  }

  function Shares(m: int, weights: seq<int>): (s: seq<int>)
    requires Sum(weights) > 0
    ensures |s| == |weights|
  {
    seq(|weights|, i requires 0 <= i < |weights| => Share(m, weights, i))
  }

  function Rests(m: int, weights: seq<int>): (s: seq<int>)
    requires Sum(weights) > 0
    ensures |s| == |weights|
  {
    seq(|weights|, i requires 0 <= i < |weights| => Rest(m, weights, i))
  }

  /** The units the floors leave to hand out. */
  function LeftOver(m: int, weights: seq<int>): int
    requires Sum(weights) > 0
  {
    m - Sum(Shares(m, weights))
  }

  /** i is served before j: a larger remainder, or the same one earlier. */
  predicate Before(rests: seq<int>, i: nat, j: nat)
    requires i < |rests| && j < |rests|
  {
    rests[i] > rests[j] || (rests[i] == rests[j] && i < j)
  }

  /** top holds indices every other index comes after. */
  ghost predicate IsTop(rests: seq<int>, top: set<nat>) {
    && (forall i | i in top :: i < |rests|)
    && (forall i, j | i in top && 0 <= j < |rests| && j !in top :: Before(rests, i, j))
  }

  /** Everyone gets their share, and the `left` indices that come first one more. */
  ghost predicate Apportions(shares: seq<int>, rests: seq<int>, left: int, parts: seq<int>, top: set<nat>) {
    && |parts| == |rests| == |shares|
    && IsTop(rests, top) && |top| == left
    && forall i: nat | i < |shares| :: parts[i] == shares[i] + if i in top then 1 else 0
  }

  /** The apportionment of m >= 0: shares are the floors of the exact ones. */
  ghost predicate IsLargestRemainder(m: int, weights: seq<int>, parts: seq<int>, top: set<nat>) {
    && NonNegative(weights) && Sum(weights) > 0 && m >= 0
    && Apportions(Shares(m, weights), Rests(m, weights), LeftOver(m, weights), parts, top)
  }

  datatype SplitResult = Parts(parts: seq<int>) | NoWeights | NegativeWeight(at: nat) | ZeroTotal

  /** What a caller is promised, for either sign. */
  ghost predicate IsSplit(minor: int, weights: seq<int>, r: SplitResult) {
    if weights == [] then r == NoWeights
    else if !NonNegative(weights) then
      r.NegativeWeight? && r.at < |weights| && weights[r.at] < 0 && NonNegative(weights[..r.at])
    else if Sum(weights) == 0 then r == ZeroTotal
    else
      && r.Parts? && |r.parts| == |weights|
      && exists top :: IsLargestRemainder(Int64.Abs(minor), weights, Signed(minor, r.parts), top)
  }

  function Signed(minor: int, parts: seq<int>): (s: seq<int>)
    ensures |s| == |parts|
  {
    seq(|parts|, i requires 0 <= i < |parts| => if minor < 0 then -parts[i] else parts[i])
  }

  // ---- sums ---------------------------------------------------------------

  lemma {:induction false} SumPrefix(xs: seq<int>, k: nat)
    requires k < |xs|
    ensures Sum(xs[..k + 1]) == Sum(xs[..k]) + xs[k]
  {
    assert xs[..k + 1][..k] == xs[..k];
  }

  lemma {:induction false} SumNonNegative(xs: seq<int>)
    requires NonNegative(xs)
    ensures Sum(xs) >= 0
    ensures Sum(xs) == 0 ==> forall i | 0 <= i < |xs| :: xs[i] == 0
    ensures forall i | 0 <= i < |xs| :: xs[i] <= Sum(xs)
  {
    if xs != [] {
      SumNonNegative(xs[..|xs| - 1]);
    }
  }

  /** Adding one to each index of a set adds the size of the set. */
  lemma {:induction false} SumOfTopped(xs: seq<int>, ys: seq<int>, top: set<nat>)
    requires |xs| == |ys|
    requires forall i | i in top :: i < |xs|
    requires forall i: nat | i < |xs| :: ys[i] == xs[i] + if i in top then 1 else 0
    ensures Sum(ys) == Sum(xs) + |top|
  {
    if xs == [] {
      assert top == {};
    } else {
      var n: nat := |xs| - 1;
      SumOfTopped(xs[..n], ys[..n], top - {n});
    }
  }

  /** Exact shares account for the whole: T * sum of floors plus the remainders
      is the amount times the total weight. */
  lemma {:induction false} SharesAndRests(m: int, weights: seq<int>, k: nat)
    requires Sum(weights) > 0 && k <= |weights|
    ensures Sum(weights) * Sum(Shares(m, weights)[..k]) + Sum(Rests(m, weights)[..k])
         == m * Sum(weights[..k])
  {
    if k > 0 {
      SharesAndRests(m, weights, k - 1);
      SumPrefix(Shares(m, weights), k - 1);
      SumPrefix(Rests(m, weights), k - 1);
      SumPrefix(weights, k - 1);
      ShareStep(Sum(weights), Sum(Shares(m, weights)[..k - 1]), m, Sum(weights[..k - 1]), weights[k - 1]);
    }
  }

  lemma ShareStep(total: int, shares: int, m: int, before: int, w: int)
    requires total > 0
    ensures total * (shares + m * w / total) + m * w % total == total * shares + m * w
    ensures m * (before + w) == m * before + m * w
  {
    var p := m * w;
    assert p == total * (p / total) + p % total;
    Int64.Distribute(shares, -(p / total), total);
    Int64.Distribute(before, -w, m);
  }

  /** n copies of b, added up. */
  ghost function Copies(n: nat, b: int): int {
    if n == 0 then 0 else Copies(n - 1, b) + b
  }

  lemma {:induction false} CopiesMultiply(n: nat, b: int)
    ensures Copies(n, b) == n * b
  {
    if n > 0 {
      CopiesMultiply(n - 1, b);
      Int64.Distribute(n - 1, 1, b);
    }
  }

  lemma {:induction false} SumBelowCopies(xs: seq<int>, top: set<nat>, bound: int)
    requires bound > 0
    requires forall i | i in top :: i < |xs|
    requires forall i: nat | i < |xs| :: 0 <= xs[i] < bound && (i !in top ==> xs[i] == 0)
    ensures Sum(xs) <= Copies(|top|, bound)
    ensures top != {} ==> Sum(xs) < Copies(|top|, bound)
  {
    if xs == [] {
      assert top == {};
    } else {
      var n: nat := |xs| - 1;
      var rest := top - {n};
      SumBelowCopies(xs[..n], rest, bound);
      if n in top {
        assert |top| == |rest| + 1;
      } else {
        assert rest == top;
      }
    }
  }

  lemma SumBelow(xs: seq<int>, top: set<nat>, bound: int)
    requires bound > 0
    requires forall i | i in top :: i < |xs|
    requires forall i: nat | i < |xs| :: 0 <= xs[i] < bound && (i !in top ==> xs[i] == 0)
    ensures Sum(xs) <= |top| * bound
    ensures top != {} ==> Sum(xs) < |top| * bound
  {
    SumBelowCopies(xs, top, bound);
    CopiesMultiply(|top|, bound);
  }

  lemma WholeAccounted(m: int, weights: seq<int>)
    requires Sum(weights) > 0
    ensures Sum(weights) * LeftOver(m, weights) == Sum(Rests(m, weights))
  {
    SharesAndRests(m, weights, |weights|);
    assert Shares(m, weights)[..|weights|] == Shares(m, weights);
    assert Rests(m, weights)[..|weights|] == Rests(m, weights);
    assert weights[..|weights|] == weights;
    Int64.Distribute(m, Sum(Shares(m, weights)), Sum(weights));
  }

  /** The units still to hand out are fewer than the indices to hand them to. */
  lemma LeftOverBounds(m: int, weights: seq<int>)
    requires NonNegative(weights) && Sum(weights) > 0 && m >= 0
    ensures 0 <= LeftOver(m, weights) < |weights|
  {
    WholeAccounted(m, weights);
    RestsInRange(m, weights);
    QuotientRange(Sum(weights), LeftOver(m, weights), Sum(Rests(m, weights)), |weights|);
  }

  lemma RestsAreRests(m: int, weights: seq<int>)
    requires Sum(weights) > 0
    ensures forall i | 0 <= i < |weights| :: 0 <= Rests(m, weights)[i] < Sum(weights)
    ensures NonNegative(Rests(m, weights))
  {
  }

  lemma RestsInRange(m: int, weights: seq<int>)
    requires NonNegative(weights) && Sum(weights) > 0
    ensures 0 <= Sum(Rests(m, weights)) < |weights| * Sum(weights)
  {
    var rests := Rests(m, weights);
    RestsAreRests(m, weights);
    SumNonNegative(rests);
    SumBelow(rests, Indices(|weights|), Sum(weights));
    assert weights != [];
    assert 0 in Indices(|weights|);
  }

  ghost function Indices(n: nat): (all: set<nat>)
    ensures forall i: nat :: i in all <==> i < n
    ensures |all| == n
  {
    if n == 0 then {} else Indices(n - 1) + {n - 1}
  }

  lemma QuotientRange(total: int, left: int, rest: int, n: int)
    requires total > 0 && total * left == rest && 0 <= rest < n * total
    ensures 0 <= left < n
  {
    if left < 0 {
      MulMonotone(left, -1, total);
    } else if left >= n {
      MulMonotone(n, left, total);
    }
  }

  lemma MulMonotone(x: int, y: int, z: int)
    requires x <= y && z >= 0
    ensures x * z <= y * z
  {
  }

  // ---- what the apportionment guarantees -------------------------------------

  /** The parts sum to the amount exactly, and each is the floor or ceiling of
      its exact share. */
  lemma PartsAreExact(minor: int, weights: seq<int>, r: SplitResult)
    requires IsSplit(minor, weights, r) && r.Parts?
    ensures Sum(r.parts) == minor
    ensures forall i | 0 <= i < |weights| ::
              Int64.Abs(minor * weights[i] - r.parts[i] * Sum(weights)) < Sum(weights)
  {
    var parts := Signed(minor, r.parts);
    var top :| IsLargestRemainder(Int64.Abs(minor), weights, parts, top);
    ApportionedSum(Shares(Int64.Abs(minor), weights), Rests(Int64.Abs(minor), weights),
                   LeftOver(Int64.Abs(minor), weights), parts, top);
    SumSigned(minor, r.parts);
    forall i: nat | i < |weights|
      ensures Int64.Abs(minor * weights[i] - r.parts[i] * Sum(weights)) < Sum(weights)
    {
      PartIsNear(minor, weights, parts, top, i, r.parts[i]);
    }
  }

  lemma ApportionedSum(shares: seq<int>, rests: seq<int>, left: int, parts: seq<int>, top: set<nat>)
    requires Apportions(shares, rests, left, parts, top)
    ensures Sum(parts) == Sum(shares) + left
  {
    SumOfTopped(shares, parts, top);
  }

  lemma PartIsNear(minor: int, weights: seq<int>, parts: seq<int>, top: set<nat>, i: nat, part: int)
    requires IsLargestRemainder(Int64.Abs(minor), weights, parts, top) && i < |weights|
    requires parts[i] == if minor < 0 then -part else part
    ensures Int64.Abs(minor * weights[i] - part * Sum(weights)) < Sum(weights)
  {
    if i in top {
      ToppedHasRemainder(Int64.Abs(minor), weights, parts, top, i);
    }
    NearShare(minor, weights[i], Sum(weights), parts[i], part);
  }

  lemma NearShare(minor: int, w: int, total: int, part: int, signed: int)
    requires total > 0
    requires var p := Int64.Abs(minor) * w;
             part == p / total || (part == p / total + 1 && p % total > 0)
    requires part == if minor < 0 then -signed else signed
    ensures Int64.Abs(minor * w - signed * total) < total
  {
    var p := Int64.Abs(minor) * w;
    NearFloor(p, total, part);
    assert minor * w == if minor < 0 then -p else p;
    assert signed * total == if minor < 0 then -(part * total) else part * total;
  }

  lemma NearFloor(p: int, total: int, part: int)
    requires total > 0 && (part == p / total || (part == p / total + 1 && p % total > 0))
    ensures Int64.Abs(p - part * total) < total
  {
    assert p == total * (p / total) + p % total;
    assert (p / total + 1) * total == (p / total) * total + total;
  }

  lemma {:induction false} SumSigned(minor: int, parts: seq<int>)
    ensures Sum(Signed(minor, parts)) == if minor < 0 then -Sum(parts) else Sum(parts)
  {
    if parts != [] {
      var n := |parts| - 1;
      SumSigned(minor, parts[..n]);
      assert Signed(minor, parts)[..n] == Signed(minor, parts[..n]);
    }
  }

  lemma ServedHasRemainder(rests: seq<int>, total: int, top: set<nat>, i: nat)
    requires IsTop(rests, top) && NonNegative(rests) && total > 0 && i in top
    requires forall j | 0 <= j < |rests| :: rests[j] < total
    requires total * |top| == Sum(rests)
    ensures i < |rests| && rests[i] > 0
  {
    if rests[i] == 0 {
      forall j: nat | j < |rests| && j !in top ensures rests[j] == 0 {
        assert Before(rests, i, j);
      }
      SumBelow(rests, top, total);
    }
  }

  /** Only indices with something left over are topped up, so a zero weight
      never receives a unit. */
  lemma ToppedHasRemainder(m: int, weights: seq<int>, parts: seq<int>, top: set<nat>, i: nat)
    requires IsLargestRemainder(m, weights, parts, top) && i in top
    ensures i < |weights| && Rest(m, weights, i) > 0
  {
    WholeAccounted(m, weights);
    RestsAreRests(m, weights);
    ServedHasRemainder(Rests(m, weights), Sum(weights), top, i);
  }

  /** What a smaller weight is owed, and what is left of it, against a larger one. */
  lemma SharesFollowWeights(m: int, weights: seq<int>, i: nat, j: nat)
    requires NonNegative(weights) && Sum(weights) > 0 && m >= 0 && i < |weights| && j < |weights|
    ensures var (shares, rests) := (Shares(m, weights), Rests(m, weights));
            && shares[i] >= 0
            && (weights[i] == 0 ==> shares[i] == rests[i] == 0)
            && (weights[i] < weights[j] ==> shares[i] <= shares[j])
            && (weights[i] < weights[j] && shares[i] == shares[j] ==> rests[i] < rests[j] || rests[i] == 0)
  {
    OwedFollows(m, weights[i], weights[j], Sum(weights));
  }

  lemma OwedFollows(m: int, v: int, w: int, total: int)
    requires m >= 0 && v >= 0 && total > 0
    ensures m * v / total >= 0
    ensures v == 0 ==> m * v / total == 0 == m * v % total
    ensures v < w ==> m * v / total <= m * w / total
    ensures v < w && m * v / total == m * w / total ==> m * v % total < m * w % total || m * v % total == 0
  {
    NonNegativeShare(m, v, total);
    if v == 0 {
      assert m * v == 0;
    }
    if v < w {
      ShareOrder(m, v, w, total);
    }
  }

  /** A zero weight gets nothing, and a smaller weight never gets more (in size)
      than a larger one. */
  lemma PartsFollowWeights(minor: int, weights: seq<int>, r: SplitResult, i: nat, j: nat)
    requires IsSplit(minor, weights, r) && r.Parts?
    requires i < |weights| && j < |weights|
    ensures weights[i] == 0 ==> r.parts[i] == 0
    ensures weights[i] < weights[j] ==> Int64.Abs(r.parts[i]) <= Int64.Abs(r.parts[j])
  {
    var m, parts := Int64.Abs(minor), Signed(minor, r.parts);
    var top :| IsLargestRemainder(m, weights, parts, top);
    SharesFollowWeights(m, weights, i, j);
    SharesFollowWeights(m, weights, j, i);
    if i in top {
      ToppedHasRemainder(m, weights, parts, top, i);
    }
    PartsFollowShares(Shares(m, weights), Rests(m, weights), LeftOver(m, weights), parts, top, i, j);
  }

  lemma PartsFollowShares(shares: seq<int>, rests: seq<int>, left: int, parts: seq<int>, top: set<nat>, i: nat, j: nat)
    requires Apportions(shares, rests, left, parts, top) && i < |shares| && j < |shares|
    requires i in top ==> rests[i] > 0
    ensures shares[i] == rests[i] == 0 ==> parts[i] == 0
    ensures shares[i] >= 0 ==> parts[i] >= 0
    ensures shares[i] < shares[j] ==> parts[i] <= parts[j]
    ensures shares[i] == shares[j] && (rests[i] < rests[j] || rests[i] == 0) ==> parts[i] <= parts[j]
  {
    if i in top && j !in top {
      assert Before(rests, i, j);
    }
  }

  lemma NonNegativeShare(m: int, w: int, total: int)
    requires m >= 0 && w >= 0 && total > 0
    ensures m * w / total >= 0
  {
    assert m * w >= 0;
  }

  lemma ShareOrder(m: int, v: int, w: int, total: int)
    requires m >= 0 && 0 <= v < w && total > 0
    ensures m * v / total <= m * w / total
    ensures m * v / total == m * w / total && m > 0 ==> m * v % total < m * w % total
    ensures m == 0 ==> m * v % total == 0
  {
    MulMonotone(v, w, m);
    if m > 0 { MulMonotone(v + 1, w, m); }
    DivOrder(m * v, m * w, total);
  }

  lemma DivOrder(p: int, q: int, total: int)
    requires p <= q && total > 0
    ensures p / total <= q / total
    ensures p / total == q / total && p < q ==> p % total < q % total
  {
    assert p == total * (p / total) + p % total;
    assert q == total * (q / total) + q % total;
    MulMonotone(q / total + 1, if p / total > q / total then p / total else q / total + 1, total);
  }

  /** The specification leaves no choice: two answers agree part by part. */
  lemma SplitIsUnique(minor: int, weights: seq<int>, r: SplitResult, t: SplitResult)
    requires IsSplit(minor, weights, r) && IsSplit(minor, weights, t)
    ensures r == t
  {
    if weights == [] {
    } else if !NonNegative(weights) {
      FirstNegative(weights, r.at, t.at);
      FirstNegative(weights, t.at, r.at);
    } else if Sum(weights) != 0 {
      SumNonNegative(weights);
      var m := Int64.Abs(minor);
      var a :| IsLargestRemainder(m, weights, Signed(minor, r.parts), a);
      var b :| IsLargestRemainder(m, weights, Signed(minor, t.parts), b);
      TopIsUnique(Rests(m, weights), a, b);
      forall i | 0 <= i < |weights| ensures r.parts[i] == t.parts[i] {
        assert Signed(minor, r.parts)[i] == Signed(minor, t.parts)[i];
      }
      assert r.parts == t.parts;
    }
  }

  lemma FirstNegative(weights: seq<int>, i: nat, j: nat)
    requires i < |weights| && j < |weights| && weights[i] < 0 && NonNegative(weights[..j])
    ensures j <= i
  {
    forall k | 0 <= k < j ensures weights[k] >= 0 {
      assert weights[..j][k] == weights[k];
    }
  }

  lemma TopIsUnique(rests: seq<int>, a: set<nat>, b: set<nat>)
    requires IsTop(rests, a) && IsTop(rests, b) && |a| == |b|
    ensures a == b
  {
    if a != b {
      if a <= b { SubsetOfEqualSize(a, b); }
      if b <= a { SubsetOfEqualSize(b, a); }
      var i :| i in a && i !in b;
      var j :| j in b && j !in a;
      var both := (Before(rests, i, j), Before(rests, j, i));
    }
  }

  lemma SubsetOfEqualSize(a: set<nat>, b: set<nat>)
    requires a <= b && |a| == |b|
    ensures a == b
  {
    assert b == a + (b - a);
  }

  /** A refund splits as the mirror image of the charge. */
  lemma RefundMirrorsCharge(minor: int, weights: seq<int>, charge: SplitResult, refund: SplitResult)
    requires IsSplit(minor, weights, charge) && IsSplit(-minor, weights, refund)
    ensures charge.Parts? <==> refund.Parts?
    ensures charge.Parts? ==> |charge.parts| == |refund.parts| == |weights|
    ensures charge.Parts? ==> forall i | 0 <= i < |weights| :: refund.parts[i] == -charge.parts[i]
  {
    if charge.Parts? {
      var m := Int64.Abs(minor);
      var a :| IsLargestRemainder(m, weights, Signed(minor, charge.parts), a);
      var b :| IsLargestRemainder(m, weights, Signed(-minor, refund.parts), b);
      TopIsUnique(Rests(m, weights), a, b);
      forall i | 0 <= i < |weights| ensures refund.parts[i] == -charge.parts[i] {
        assert Signed(minor, charge.parts)[i] == Signed(-minor, refund.parts)[i];
        if minor == 0 {
          PartsFollowZero(weights, charge.parts, a, i);
        }
      }
    }
  }

  lemma PartsFollowZero(weights: seq<int>, parts: seq<int>, top: set<nat>, i: nat)
    requires IsLargestRemainder(0, weights, Signed(0, parts), top) && i < |weights|
    ensures parts[i] == 0
  {
    assert 0 * weights[i] == 0;
    if i in top { ToppedHasRemainder(0, weights, Signed(0, parts), top, i); }
    assert Signed(0, parts)[i] == parts[i];
  }

  lemma SomeIndexOutside(top: set<nat>, n: nat)
    requires |top| < n
    ensures exists i: nat :: i < n && i !in top
  {
    if Indices(n) <= top {
      SubsetIsSmaller(Indices(n), top);
    }
    var i :| i in Indices(n) && i !in top;
  }

  lemma SubsetIsSmaller(a: set<nat>, b: set<nat>)
    requires a <= b
    ensures |a| <= |b|
  {
    assert b == a + (b - a);
  }
}
