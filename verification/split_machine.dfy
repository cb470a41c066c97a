/** Amount.SplitProRata as it runs: array loops over 64-bit integers that wrap,
    what they compute for every input, and when that is the split promised. */
module SplitMachine {
  import Int64
  import opened Split

  // ---- what the loops compute ---------------------------------------------------

  predicate AllFit(xs: seq<int>) {
    forall i | 0 <= i < |xs| :: Int64.Fits(xs[i])
  }

  function MachineSum(xs: seq<int>): (s: int)
    ensures Int64.Fits(s)
  {
    if xs == [] then 0 else Int64.Wrap(MachineSum(xs[..|xs| - 1]) + xs[|xs| - 1])
  }

  function Magnitude(minor: int): int {
    if minor < 0 then Int64.Wrap(-minor) else minor
  }

  function ShareOf(exact: int, total: int): int
    requires total != 0
  {
    Int64.Wrap(Int64.Quo(exact, total))
  }

  function RestOf(exact: int, total: int): int
    requires total != 0
  {
    Int64.Wrap(exact - Int64.Wrap(ShareOf(exact, total) * total))
  }

  function MachineShares(m: int, total: int, weights: seq<int>): (s: seq<int>)
    requires total != 0
    ensures |s| == |weights|
  {
    seq(|weights|, i requires 0 <= i < |weights| => ShareOf(Int64.Wrap(m * weights[i]), total))
  }

  function MachineRests(m: int, total: int, weights: seq<int>): (s: seq<int>)
    requires total != 0
    ensures |s| == |weights|
  {
    seq(|weights|, i requires 0 <= i < |weights| => RestOf(Int64.Wrap(m * weights[i]), total))
  }

  /** What the register says is left to hand out: negative when something wrapped. */
  function MachineLeft(m: int, total: int, weights: seq<int>): int
    requires total != 0
  {
    Int64.Wrap(m - MachineSum(MachineShares(m, total, weights)))
  }

  /** The first index of the largest value. */
  function FirstLargest(values: seq<int>): (best: nat)
    requires values != []
    ensures best < |values|
    ensures forall j | 0 <= j < |values| :: values[j] <= values[best]
    ensures forall j | 0 <= j < best :: values[j] < values[best]
  {
    var last := |values| - 1;
    if last == 0 then 0
    else
      var best := FirstLargest(values[..last]);
      if values[last] > values[best] then last else best
  }

  /** The units, one at a time, to the largest remainder not yet used. */
  function HandedOut(parts: seq<int>, rests: seq<int>, left: int): (r: seq<int>)
    requires |parts| == |rests| > 0
    ensures |r| == |parts|
    decreases left
  {
    if left <= 0 then parts
    else
      var best := FirstLargest(rests);
      HandedOut(parts[best := Int64.Wrap(parts[best] + 1)], rests[best := -1], left - 1)
  }

  function Negated(parts: seq<int>): (s: seq<int>)
    ensures |s| == |parts|
  {
    seq(|parts|, i requires 0 <= i < |parts| => Int64.Wrap(-parts[i]))
  }

  function Resigned(minor: int, parts: seq<int>): (s: seq<int>)
    ensures |s| == |parts|
  {
    if minor < 0 then Negated(parts) else parts
  }

  function UnsignedParts(m: int, total: int, weights: seq<int>): (s: seq<int>)
    requires total != 0 && weights != []
    ensures |s| == |weights|
  {
    HandedOut(MachineShares(m, total, weights), MachineRests(m, total, weights), MachineLeft(m, total, weights))
  }

  function MachineParts(minor: int, weights: seq<int>): (s: seq<int>)
    requires MachineSum(weights) != 0
    ensures |s| == |weights|
  {
    Resigned(minor, UnsignedParts(Magnitude(minor), MachineSum(weights), weights))
  }

  /** The answer on every input, wrapping included. */
  ghost predicate RunsTo(minor: int, weights: seq<int>, r: SplitResult) {
    if weights == [] then r == NoWeights
    else if !NonNegative(weights) then
      r.NegativeWeight? && r.at < |weights| && weights[r.at] < 0 && NonNegative(weights[..r.at])
    else if MachineSum(weights) == 0 then r == ZeroTotal
    else r == Parts(MachineParts(minor, weights))
  }

  /** The weights and amounts for which no operation wraps. */
  ghost predicate InRange(minor: int, weights: seq<int>) {
    && Int64.MIN < minor <= Int64.MAX
    && Sum(weights) <= Int64.MAX
    && forall i | 0 <= i < |weights| :: Int64.Abs(minor) * weights[i] <= Int64.MAX
  }

  // ---- the loops -------------------------------------------------------------------

  method SplitProRata(minor: int, weights: seq<int>) returns (r: SplitResult)
    requires Int64.Fits(minor) && AllFit(weights)
    ensures RunsTo(minor, weights, r)
    ensures weights == [] || !NonNegative(weights) || InRange(minor, weights) ==> IsSplit(minor, weights, r)
  {
    if |weights| == 0 {
      return NoWeights;
    }
    var total := 0;
    for i := 0 to |weights|
      invariant NonNegative(weights[..i])
      invariant total == MachineSum(weights[..i])
    {
      assert weights[..i + 1][..i] == weights[..i];
      if weights[i] < 0 {
        return NegativeWeight(i);
      }
      total := Int64.Wrap(total + weights[i]);
    }
    assert weights[..|weights|] == weights;
    if total != 0 {
      var parts := Apportion(minor, weights, total);
      r := Parts(parts);
    } else {
      r := ZeroTotal;
    }
    if InRange(minor, weights) {
      InRangeIsSplit(minor, weights, r);
    }
  }

  method Apportion(minor: int, weights: seq<int>, total: int) returns (r: seq<int>)
    requires weights != [] && total == MachineSum(weights) != 0
    ensures r == MachineParts(minor, weights)
  {
    var magnitude := if minor < 0 then Int64.Wrap(-minor) else minor;
    var parts := ApportionMagnitude(magnitude, weights, total);
    if minor < 0 {
      NegateAll(parts);
    }
    r := parts[..];
  }

  method ApportionMagnitude(magnitude: int, weights: seq<int>, total: int) returns (parts: array<int>)
    requires weights != [] && total != 0
    ensures fresh(parts) && parts[..] == UnsignedParts(magnitude, total, weights)
  {
    parts := new int[|weights|];
    var remainders := new int[|weights|];
    var handedOut := Floors(magnitude, weights, total, parts, remainders);
    HandOut(parts, remainders, Int64.Wrap(magnitude - handedOut));
  }

  method NegateAll(a: array<int>)
    modifies a
    ensures a[..] == Negated(old(a[..]))
  {
    for i := 0 to a.Length
      invariant forall j | 0 <= j < i :: a[j] == Int64.Wrap(-old(a[j]))
      invariant forall j | i <= j < a.Length :: a[j] == old(a[j])
    {
      a[i] := Int64.Wrap(-a[i]);
    }
  }

  /** The shares and their remainders, index by index. */
  method Floors(magnitude: int, weights: seq<int>, total: int, parts: array<int>, remainders: array<int>)
    returns (handedOut: int)
    requires total != 0
    requires parts != remainders && parts.Length == remainders.Length == |weights|
    modifies parts, remainders
    ensures parts[..] == MachineShares(magnitude, total, weights)
    ensures remainders[..] == MachineRests(magnitude, total, weights)
    ensures handedOut == MachineSum(MachineShares(magnitude, total, weights))
  {
    handedOut := 0;
    ghost var shares := MachineShares(magnitude, total, weights);
    ghost var rests := MachineRests(magnitude, total, weights);
    for i := 0 to |weights|
      invariant parts[..i] == shares[..i]
      invariant remainders[..i] == rests[..i]
      invariant handedOut == MachineSum(shares[..i])
    {
      var exact := Int64.Wrap(magnitude * weights[i]);
      var share := Int64.Wrap(Int64.Quo(exact, total));
      parts[i] := share;
      remainders[i] := Int64.Wrap(exact - Int64.Wrap(share * total));
      handedOut := Int64.Wrap(handedOut + share);
      assert shares[..i + 1][..i] == shares[..i];
    }
    assert shares[..|weights|] == shares && rests[..|weights|] == rests;
  }

  method HandOut(parts: array<int>, remainders: array<int>, units: int)
    requires parts != remainders && parts.Length == remainders.Length > 0
    modifies parts, remainders
    ensures parts[..] == HandedOut(old(parts[..]), old(remainders[..]), units)
  {
    var left := units;
    while left > 0
      invariant HandedOut(parts[..], remainders[..], left) == HandedOut(old(parts[..]), old(remainders[..]), units)
    {
      var best := FindLargest(remainders);
      ghost var was, rests := parts[..], remainders[..];
      HandOne(was, rests, left);
      parts[best] := Int64.Wrap(parts[best] + 1);
      remainders[best] := -1;
      assert parts[..] == was[best := Int64.Wrap(was[best] + 1)] && remainders[..] == rests[best := -1];
      left := left - 1;
    }
  }

  lemma HandOne(parts: seq<int>, rests: seq<int>, left: int)
    requires |parts| == |rests| > 0 && left > 0
    ensures var best := FirstLargest(rests);
            var next := HandedOut(parts[best := Int64.Wrap(parts[best] + 1)], rests[best := -1], left - 1);
            HandedOut(parts, rests, left) == next
  {
  }

  method FindLargest(values: array<int>) returns (best: nat)
    requires values.Length > 0
    ensures best == FirstLargest(values[..])
  {
    best := 0;
    for i := 0 to values.Length
      invariant best < values.Length && best <= i
      invariant forall j | 0 <= j < i :: values[j] <= values[best]
      invariant forall j | 0 <= j < best :: values[j] < values[best]
    {
      if values[i] > values[best] {
        best := i;
      }
    }
    var first := FirstLargest(values[..]);
    assert values[..][first] == values[first] && values[..][best] == values[best];
  }

  // ---- inside the range: the split promised --------------------------------------------

  lemma {:induction false} MachineSumExact(xs: seq<int>)
    requires NonNegative(xs) && Sum(xs) <= Int64.MAX
    ensures MachineSum(xs) == Sum(xs)
  {
    SumNonNegative(xs);
    if xs != [] {
      MachineSumExact(xs[..|xs| - 1]);
    }
  }

  /** No step of the floors leaves the range of the product it starts from. */
  lemma ShareIsExact(exact: int, total: int)
    requires total > 0 && 0 <= exact <= Int64.MAX
    ensures ShareOf(exact, total) == exact / total
    ensures RestOf(exact, total) == exact % total
  {
    var share := exact / total;
    assert exact == total * share + exact % total;
    MulMonotone(1, total, share);
    assert Int64.Fits(share) && Int64.Fits(share * total) && Int64.Fits(exact - share * total);
  }

  lemma FloorsAreExact(m: int, weights: seq<int>)
    requires NonNegative(weights) && 0 < Sum(weights) <= Int64.MAX && 0 <= m <= Int64.MAX
    requires forall i | 0 <= i < |weights| :: m * weights[i] <= Int64.MAX
    ensures MachineShares(m, Sum(weights), weights) == Shares(m, weights)
    ensures MachineRests(m, Sum(weights), weights) == Rests(m, weights)
    ensures NonNegative(Shares(m, weights))
  {
    var total := Sum(weights);
    forall i: nat | i < |weights|
      ensures MachineShares(m, total, weights)[i] == Share(m, weights, i) >= 0
      ensures MachineRests(m, total, weights)[i] == Rest(m, weights, i)
    {
      NonNegativeShare(m, weights[i], total);
      MulMonotone(0, weights[i], m);
      ShareIsExact(m * weights[i], total);
    }
    assert MachineShares(m, total, weights) == Shares(m, weights);
    assert MachineRests(m, total, weights) == Rests(m, weights);
  }

  lemma LeftIsExact(m: int, weights: seq<int>)
    requires 0 < Sum(weights) && 0 <= m <= Int64.MAX
    requires MachineShares(m, Sum(weights), weights) == Shares(m, weights)
    requires NonNegative(Shares(m, weights)) && LeftOver(m, weights) >= 0
    ensures MachineLeft(m, Sum(weights), weights) == LeftOver(m, weights)
  {
    SumNonNegative(Shares(m, weights));
    MachineSumExact(Shares(m, weights));
  }

  /** What the arrays hold while the indices in top have been served. */
  ghost predicate Serving(shares: seq<int>, rests: seq<int>, parts: seq<int>, remainders: seq<int>, top: set<nat>) {
    && |parts| == |remainders| == |shares| == |rests|
    && NonNegative(rests)
    && IsTop(rests, top)
    && (forall i: nat | i < |shares| :: parts[i] == shares[i] + if i in top then 1 else 0)
    && (forall i: nat | i < |shares| :: remainders[i] == if i in top then -1 else rests[i])
  }

  /** While units are left no share is at the limit. */
  ghost predicate HasRoom(shares: seq<int>, left: int) {
    forall i | 0 <= i < |shares| :: 0 <= shares[i] && (left > 0 ==> shares[i] < Int64.MAX)
  }

  lemma BestIsNext(rests: seq<int>, remainders: seq<int>, top: set<nat>, best: nat)
    requires |remainders| == |rests| && best < |rests| && |top| < |rests|
    requires NonNegative(rests) && IsTop(rests, top)
    requires forall i: nat | i < |rests| :: remainders[i] == if i in top then -1 else rests[i]
    requires forall j | 0 <= j < |rests| :: remainders[j] <= remainders[best]
    requires forall j | 0 <= j < best :: remainders[j] < remainders[best]
    ensures best !in top
    ensures IsTop(rests, top + {best})
  {
    SomeIndexOutside(top, |rests|);
    var i: nat :| i < |rests| && i !in top;
    assert remainders[i] >= 0;
  }

  lemma HandStep(parts: seq<int>, remainders: seq<int>, left: int)
    requires |parts| == |remainders| > 0 && left > 0
    requires 0 <= parts[FirstLargest(remainders)] < Int64.MAX
    ensures var best := FirstLargest(remainders);
            var next := HandedOut(parts[best := parts[best] + 1], remainders[best := -1], left - 1);
            HandedOut(parts, remainders, left) == next
  {
  }

  lemma ServeNext(shares: seq<int>, rests: seq<int>, parts: seq<int>, remainders: seq<int>, top: set<nat>, left: int)
    returns (next: seq<int>, spent: seq<int>, served: set<nat>)
    requires Serving(shares, rests, parts, remainders, top) && |top| < |shares| && left > 0
    requires HasRoom(shares, left)
    ensures |served| == |top| + 1 && Serving(shares, rests, next, spent, served)
    ensures HandedOut(parts, remainders, left) == HandedOut(next, spent, left - 1)
  {
    var best := FirstLargest(remainders);
    BestIsNext(rests, remainders, top, best);
    next, spent, served := parts[best := parts[best] + 1], remainders[best := -1], top + {best};
    HandStep(parts, remainders, left);
  }

  /** Serving the indices one at a time ends with the whole leftover served, largest
      remainder first, and no part passes the limit. */
  lemma {:induction false} HandedOutServes(shares: seq<int>, rests: seq<int>, parts: seq<int>, remainders: seq<int>,
                                           left: int, top: set<nat>)
    returns (final: seq<int>, spent: seq<int>, served: set<nat>)
    requires shares != [] && Serving(shares, rests, parts, remainders, top)
    requires 0 <= left && |top| + left <= |shares|
    requires HasRoom(shares, left)
    ensures final == HandedOut(parts, remainders, left)
    ensures |served| == |top| + left && Serving(shares, rests, final, spent, served)
    decreases left
  {
    if left == 0 {
      return parts, remainders, top;
    }
    var next;
    next, spent, served := ServeNext(shares, rests, parts, remainders, top, left);
    final, spent, served := HandedOutServes(shares, rests, next, spent, left - 1, served);
  }

  lemma HandedOutApportions(shares: seq<int>, rests: seq<int>, left: int) returns (top: set<nat>)
    requires |shares| == |rests| && NonNegative(rests) && 0 <= left < |shares|
    requires HasRoom(shares, left)
    ensures Apportions(shares, rests, left, HandedOut(shares, rests, left), top)
  {
    assert Serving(shares, rests, shares, rests, {});
    var final, spent;
    final, spent, top := HandedOutServes(shares, rests, shares, rests, left, {});
  }

  lemma SharesLeaveRoom(shares: seq<int>, m: int, left: int)
    requires NonNegative(shares) && 0 <= left == m - Sum(shares) && m <= Int64.MAX
    ensures HasRoom(shares, left) && forall i | 0 <= i < |shares| :: 0 <= shares[i] <= m
  {
    SumNonNegative(shares);
  }

  lemma HandedOutIsLargestRemainder(m: int, weights: seq<int>, shares: seq<int>, rests: seq<int>, left: int)
    returns (top: set<nat>)
    requires NonNegative(weights) && Sum(weights) > 0 && 0 <= m <= Int64.MAX
    requires shares == Shares(m, weights) && rests == Rests(m, weights) && left == LeftOver(m, weights)
    requires NonNegative(shares) && NonNegative(rests) && 0 <= left < |shares|
    ensures IsLargestRemainder(m, weights, HandedOut(shares, rests, left), top)
  {
    SharesLeaveRoom(shares, m, left);
    top := HandedOutApportions(shares, rests, left);
  }

  lemma InRangeParts(minor: int, weights: seq<int>)
    requires InRange(minor, weights) && NonNegative(weights) && Sum(weights) > 0
    requires MachineSum(weights) == Sum(weights)
    ensures exists top: set<nat> ::
              IsLargestRemainder(Int64.Abs(minor), weights, Signed(minor, MachineParts(minor, weights)), top)
  {
    var m := Int64.Abs(minor);
    FloorsAreExact(m, weights);
    LeftOverBounds(m, weights);
    LeftIsExact(m, weights);
    var shares, rests, left := Shares(m, weights), Rests(m, weights), LeftOver(m, weights);
    RestsAreRests(m, weights);
    var parts := HandedOut(shares, rests, left);
    var top := HandedOutIsLargestRemainder(m, weights, shares, rests, left);
    PartsFit(shares, rests, left, m, parts, top);
    SignsCancel(minor, parts);
    assert MachineParts(minor, weights) == Resigned(minor, parts);
  }

  lemma PartsFit(shares: seq<int>, rests: seq<int>, left: int, m: int, parts: seq<int>, top: set<nat>)
    requires Apportions(shares, rests, left, parts, top)
    requires NonNegative(shares) && left == m - Sum(shares) && m <= Int64.MAX
    ensures forall i | 0 <= i < |parts| :: 0 <= parts[i] <= Int64.MAX
  {
    SharesLeaveRoom(shares, m, left);
    forall i: nat | i < |parts| ensures 0 <= parts[i] <= Int64.MAX {
      if i in top {
        assert top == {i} + (top - {i});
      }
    }
  }

  lemma SignsCancel(minor: int, parts: seq<int>)
    requires forall i | 0 <= i < |parts| :: 0 <= parts[i] <= Int64.MAX
    ensures Signed(minor, Resigned(minor, parts)) == parts
  {
  }

  lemma InRangeIsSplit(minor: int, weights: seq<int>, r: SplitResult)
    requires InRange(minor, weights) && RunsTo(minor, weights, r)
    ensures IsSplit(minor, weights, r)
  {
    if weights != [] && NonNegative(weights) {
      SumNonNegative(weights);
      MachineSumExact(weights);
      if Sum(weights) > 0 {
        InRangeParts(minor, weights);
      }
    }
  }

  // ---- outside the range: who gets more than one unit -------------------------------------

  /** No unit goes to j while i stands before it: not now, and not once i is spent. */
  predicate Shadows(rests: seq<int>, i: nat, j: nat)
    requires i < |rests| && j < |rests|
  {
    rests[j] <= -1 && ((i < j && rests[i] >= rests[j]) || (rests[i] > rests[j] && rests[j] < -1))
  }

  predicate AtMostOneMore(part: int, final: int) {
    final == part || final == Int64.Wrap(part + 1)
  }

  lemma {:induction false} ShadowedGetsNothing(parts: seq<int>, rests: seq<int>, left: int, i: nat, j: nat)
    requires |parts| == |rests| && i < |rests| && j < |rests| && i != j && Shadows(rests, i, j)
    ensures HandedOut(parts, rests, left)[j] == parts[j]
    decreases left
  {
    if left > 0 {
      var best := FirstLargest(rests);
      ShadowedGetsNothing(parts[best := Int64.Wrap(parts[best] + 1)], rests[best := -1], left - 1, i, j);
    }
  }

  /** While the first index is in the running no other gets a second unit. */
  lemma {:induction false} OnlyTheFirstRepeats(parts: seq<int>, rests: seq<int>, left: int, j: nat)
    requires |parts| == |rests| && 0 < j < |rests| && rests[0] >= -1
    ensures AtMostOneMore(parts[j], HandedOut(parts, rests, left)[j])
    decreases left
  {
    if left > 0 {
      var best := FirstLargest(rests);
      var next, spent := parts[best := Int64.Wrap(parts[best] + 1)], rests[best := -1];
      if best == j {
        ShadowedGetsNothing(next, spent, left - 1, 0, j);
      } else {
        OnlyTheFirstRepeats(next, spent, left - 1, j);
      }
    }
  }

  /** A spent index waits for the rest to be spent, and then only one of two goes on. */
  lemma {:induction false} SpentWaits(parts: seq<int>, rests: seq<int>, left: int, i: nat, j: nat)
    requires |parts| == |rests| && i < |rests| && j < |rests| && i != j && rests[i] <= -1
    ensures var final := HandedOut(parts, rests, left);
            final[i] == parts[i] || AtMostOneMore(parts[j], final[j])
    decreases left
  {
    if left > 0 {
      if Shadows(rests, i, j) {
        ShadowedGetsNothing(parts, rests, left, i, j);
      } else if Shadows(rests, j, i) {
        ShadowedGetsNothing(parts, rests, left, j, i);
      } else {
        var best := FirstLargest(rests);
        var next, spent := parts[best := Int64.Wrap(parts[best] + 1)], rests[best := -1];
        if best != j {
          SpentWaits(next, spent, left - 1, i, j);
        } else if Shadows(spent, i, j) {
          ShadowedGetsNothing(next, spent, left - 1, i, j);
        } else {
          ShadowedGetsNothing(next, spent, left - 1, j, i);
        }
      }
    }
  }

  /** Of any two indices one gets at most one unit. */
  lemma {:induction false} OnlyOneRepeats(parts: seq<int>, rests: seq<int>, left: int, i: nat, j: nat)
    requires |parts| == |rests| && i < |rests| && j < |rests| && i != j
    ensures var final := HandedOut(parts, rests, left);
            AtMostOneMore(parts[i], final[i]) || AtMostOneMore(parts[j], final[j])
    decreases left
  {
    if left > 0 {
      var best := FirstLargest(rests);
      var next, spent := parts[best := Int64.Wrap(parts[best] + 1)], rests[best := -1];
      if best == i {
        SpentWaits(next, spent, left - 1, i, j);
      } else if best == j {
        SpentWaits(next, spent, left - 1, j, i);
      } else {
        OnlyOneRepeats(next, spent, left - 1, i, j);
      }
    }
  }

  /** A product that wrapped leaves its share two units short or more. */
  lemma WrappedShareIsShort(p: int, total: int, final: int)
    requires p > Int64.MAX && 2 <= total && 3 * total <= Int64.MODULUS
    requires AtMostOneMore(ShareOf(Int64.Wrap(p), total), final)
    ensures Int64.MIN < final <= Int64.MAX && final < p / total
  {
    var k := Int64.WrapOffset(p);
    var w := Int64.Wrap(p);
    HalfOrLess(w, total);
    ShortQuotient(p, w, -k, total);
  }

  lemma HalfOrLess(w: int, total: int)
    requires Int64.Fits(w) && total >= 2
    ensures Int64.MIN < Int64.Quo(w, total) < Int64.MAX
  {
    var q := Int64.Quo(w, total);
    Int64.QuoRemainder(w, total);
    if q <= Int64.MIN {
      MulMonotone(q, Int64.MIN, total);
    } else if q >= Int64.MAX {
      MulMonotone(Int64.MAX, q, total);
    }
  }

  lemma ShortQuotient(p: int, w: int, turns: int, total: int)
    requires p == w + turns * Int64.MODULUS && turns >= 1 && 2 <= total && 3 * total <= Int64.MODULUS
    ensures Int64.Quo(w, total) + 2 <= p / total
  {
    var q := Int64.Quo(w, total);
    Int64.QuoRemainder(w, total);
    Int64.Distribute(q, 2, total);
    QuotientAtLeast(p, q + 2, total);
  }

  lemma QuotientAtLeast(p: int, q: int, total: int)
    requires total > 0 && q * total <= p
    ensures q <= p / total
  {
    assert p == total * (p / total) + p % total;
    if p / total < q {
      Int64.Distribute(p / total, 1, total);
      MulMonotone(p / total + 1, q, total);
    }
  }

  lemma PartIsAtLeastShare(minor: int, weights: seq<int>, parts: seq<int>, i: nat)
    requires IsSplit(minor, weights, Parts(parts)) && i < |weights|
    ensures Sum(weights) > 0 && |parts| == |weights|
    ensures Signed(minor, parts)[i] >= Share(Int64.Abs(minor), weights, i)
  {
    var top :| IsLargestRemainder(Int64.Abs(minor), weights, Signed(minor, parts), top);
    assert Shares(Int64.Abs(minor), weights)[i] == Share(Int64.Abs(minor), weights, i);
  }

  lemma SignCancels(minor: int, parts: seq<int>, i: nat)
    requires i < |parts| && Int64.MIN < parts[i] <= Int64.MAX
    ensures Signed(minor, Resigned(minor, parts))[i] == parts[i]
  {
  }

  /** An index whose product wrapped needs more than one unit to come out right. */
  lemma ShortIsNotSplit(minor: int, weights: seq<int>, i: nat, final: seq<int>)
    requires Int64.MIN < minor <= Int64.MAX && i < |weights|
    requires 2 <= Sum(weights) && 3 * Sum(weights) <= Int64.MODULUS
    requires Int64.Abs(minor) * weights[i] > Int64.MAX && |final| == |weights|
    requires AtMostOneMore(MachineShares(Int64.Abs(minor), Sum(weights), weights)[i], final[i])
    ensures !IsSplit(minor, weights, Parts(Resigned(minor, final)))
  {
    WrappedShareIsShort(Int64.Abs(minor) * weights[i], Sum(weights), final[i]);
    SignCancels(minor, final, i);
    if IsSplit(minor, weights, Parts(Resigned(minor, final))) {
      PartIsAtLeastShare(minor, weights, Resigned(minor, final), i);
    }
  }

  /** A product that wraps, other than the first weight's, spoils the split. */
  lemma WrappedProductFails(minor: int, weights: seq<int>, j: nat)
    requires Int64.MIN < minor <= Int64.MAX && NonNegative(weights)
    requires 3 * Sum(weights) <= Int64.MODULUS
    requires 0 < j < |weights| && Int64.Abs(minor) * weights[j] > Int64.MAX
    ensures MachineSum(weights) == Sum(weights) > 0
    ensures !IsSplit(minor, weights, Parts(MachineParts(minor, weights)))
  {
    var m, total := Int64.Abs(minor), Sum(weights);
    AtLeastTwo(m, weights, j);
    MachineSumExact(weights);
    var shares, rests := MachineShares(m, total, weights), MachineRests(m, total, weights);
    var left := MachineLeft(m, total, weights);
    var final := HandedOut(shares, rests, left);
    assert MachineParts(minor, weights) == Resigned(minor, final);
    if rests[0] >= -1 {
      OnlyTheFirstRepeats(shares, rests, left, j);
      ShortIsNotSplit(minor, weights, j, final);
    } else {
      NegativeRestWrapped(m, weights);
      OnlyOneRepeats(shares, rests, left, 0, j);
      ShortIsNotSplit(minor, weights, if AtMostOneMore(shares[j], final[j]) then j else 0, final);
    }
  }

  lemma AtLeastTwo(m: int, weights: seq<int>, j: nat)
    requires 0 <= m <= Int64.MAX && NonNegative(weights) && j < |weights| && m * weights[j] > Int64.MAX
    ensures Sum(weights) >= 2
  {
    SumNonNegative(weights);
    if weights[j] <= 1 {
      MulMonotone(weights[j], 1, m);
    }
  }

  lemma NegativeRestWrapped(m: int, weights: seq<int>)
    requires 0 <= m && NonNegative(weights) && weights != [] && Sum(weights) > 0
    requires MachineRests(m, Sum(weights), weights)[0] < 0
    ensures m * weights[0] > Int64.MAX
  {
    MulMonotone(0, weights[0], m);
    if m * weights[0] <= Int64.MAX {
      ShareIsExact(m * weights[0], Sum(weights));
    }
  }

  ghost predicate FirstIsNotLargest(weights: seq<int>) {
    exists j :: 0 < j < |weights| && weights[j] >= weights[0]
  }

  /** For weights whose first is not larger than all the others and whose sum stays
      under a third of 2^64, the split is the one promised exactly when no product
      wraps, which a caller can see beforehand. */
  lemma SplitsExactlyInRange(minor: int, weights: seq<int>)
    requires Int64.MIN < minor <= Int64.MAX && NonNegative(weights)
    requires 0 < Sum(weights) && 3 * Sum(weights) <= Int64.MODULUS && FirstIsNotLargest(weights)
    ensures MachineSum(weights) == Sum(weights)
    ensures IsSplit(minor, weights, Parts(MachineParts(minor, weights))) <==> InRange(minor, weights)
  {
    var m := Int64.Abs(minor);
    MachineSumExact(weights);
    if InRange(minor, weights) {
      InRangeIsSplit(minor, weights, Parts(MachineParts(minor, weights)));
    } else {
      var i :| 0 <= i < |weights| && m * weights[i] > Int64.MAX;
      var j :| 0 < j < |weights| && weights[j] >= weights[0];
      MulMonotone(weights[0], weights[j], m);
      WrappedProductFails(minor, weights, if i == 0 then j else i);
    }
  }

  // ---- on every input: when the parts add up ----------------------------------------------

  /** A register holds the sum, but for a multiple of 2^64. */
  lemma {:induction false} MachineSumOffset(xs: seq<int>) returns (k: int)
    ensures MachineSum(xs) == Sum(xs) + k * Int64.MODULUS
  {
    k := 0;
    if xs != [] {
      var n := |xs| - 1;
      k := MachineSumOffset(xs[..n]);
      var j := Int64.WrapOffset(MachineSum(xs[..n]) + xs[n]);
      k := k + j;
    }
  }

  lemma {:induction false} SumOfChanged(xs: seq<int>, k: nat, v: int)
    requires k < |xs|
    ensures Sum(xs[k := v]) == Sum(xs) - xs[k] + v
  {
    var n := |xs| - 1;
    if k == n {
      assert xs[k := v][..n] == xs[..n];
    } else {
      assert xs[k := v][..n] == xs[..n][k := v];
      SumOfChanged(xs[..n], k, v);
    }
  }

  /** The units a loop counting down from `left` hands out. */
  function Units(left: int): nat {
    if left > 0 then left else 0
  }

  /** Each unit handed out raises the sum by one, but for multiples of 2^64. */
  lemma {:induction false} SumOfHandedOut(parts: seq<int>, rests: seq<int>, left: int) returns (k: int)
    requires |parts| == |rests| > 0
    ensures Sum(HandedOut(parts, rests, left)) == Sum(parts) + Units(left) + k * Int64.MODULUS
    decreases left
  {
    k := 0;
    if left > 0 {
      var best := FirstLargest(rests);
      var j := Int64.WrapOffset(parts[best] + 1);
      SumOfChanged(parts, best, Int64.Wrap(parts[best] + 1));
      k := SumOfHandedOut(parts[best := Int64.Wrap(parts[best] + 1)], rests[best := -1], left - 1);
      k := k + j;
    }
  }

  lemma {:induction false} SumOfNegated(parts: seq<int>) returns (k: int)
    ensures Sum(Negated(parts)) == -Sum(parts) + k * Int64.MODULUS
  {
    k := 0;
    if parts != [] {
      var n := |parts| - 1;
      k := SumOfNegated(parts[..n]);
      assert Negated(parts)[..n] == Negated(parts[..n]);
      var j := Int64.WrapOffset(-parts[n]);
      k := k + j;
    }
  }

  /** Two registers a multiple of 2^64 apart are equal. */
  lemma LeftoverDecides(m: int, left: int, sum: int, k: int)
    requires Int64.Fits(m) && Int64.Fits(left) && Int64.Fits(sum)
    requires sum == m - left + Units(left) + k * Int64.MODULUS
    ensures sum == m <==> left >= 0
  {
  }

  lemma OppositesMatch(minor: int, m: int, sum: int, negated: int, j: int, k: int)
    requires Int64.Fits(minor) && Int64.Fits(m) && Int64.Fits(sum) && Int64.Fits(negated)
    requires m == -minor + j * Int64.MODULUS && negated == -sum + k * Int64.MODULUS
    ensures negated == minor <==> sum == m
  {
  }

  lemma UnsignedAddUp(m: int, total: int, weights: seq<int>)
    requires Int64.Fits(m) && total != 0 && weights != []
    ensures MachineSum(UnsignedParts(m, total, weights)) == m <==> MachineLeft(m, total, weights) >= 0
  {
    var shares, rests := MachineShares(m, total, weights), MachineRests(m, total, weights);
    var left := MachineLeft(m, total, weights);
    var inLeft := Int64.WrapOffset(m - MachineSum(shares));
    var inParts := SumOfHandedOut(shares, rests, left);
    var inShares := MachineSumOffset(shares);
    var inSum := MachineSumOffset(UnsignedParts(m, total, weights));
    LeftoverDecides(m, left, MachineSum(UnsignedParts(m, total, weights)), inLeft + inParts - inShares + inSum);
  }

  lemma ResignedSums(minor: int, parts: seq<int>)
    requires Int64.Fits(minor)
    ensures MachineSum(Resigned(minor, parts)) == minor <==> MachineSum(parts) == Magnitude(minor)
  {
    if minor < 0 {
      var inSize := Int64.WrapOffset(-minor);
      var inParts := SumOfNegated(parts);
      var before := MachineSumOffset(parts);
      var after := MachineSumOffset(Negated(parts));
      OppositesMatch(minor, Magnitude(minor), MachineSum(parts), MachineSum(Negated(parts)), inSize,
                     inParts + before + after);
    }
  }

  /** For every amount and every list of weights the loops accept, the parts add up to
      the amount, in the register, exactly when what is left to hand out did not turn
      negative. */
  lemma PartsAddUpExactlyWhen(minor: int, weights: seq<int>)
    requires Int64.Fits(minor) && MachineSum(weights) != 0
    ensures MachineSum(MachineParts(minor, weights)) == minor
       <==> MachineLeft(Magnitude(minor), MachineSum(weights), weights) >= 0
  {
    var m, total := Magnitude(minor), MachineSum(weights);
    UnsignedAddUp(m, total, weights);
    ResignedSums(minor, UnsignedParts(m, total, weights));
  }

  /** Two equal weights out of range: half of 2^62 by weight 2 of 4 comes out as minus
      2^61, both ways, and the sum has the wrong sign. */
  lemma OutOfRangeFails(r: SplitResult)
    requires RunsTo(0x4000_0000_0000_0000, [2, 2], r)
    ensures r == Parts([-0x2000_0000_0000_0000, -0x2000_0000_0000_0000])
    ensures !IsSplit(0x4000_0000_0000_0000, [2, 2], r)
  {
    var m, half := 0x4000_0000_0000_0000, -0x2000_0000_0000_0000;
    SumOfTwo(2);
    SumOfTwo(half);
    FailingParts();
    if IsSplit(m, [2, 2], r) {
      PartsAreExact(m, [2, 2], r);
    }
  }

  lemma FailingParts()
    ensures MachineSum([2, 2]) == 4
    ensures MachineParts(0x4000_0000_0000_0000, [2, 2]) == [-0x2000_0000_0000_0000, -0x2000_0000_0000_0000]
  {
    var m, half := 0x4000_0000_0000_0000, -0x2000_0000_0000_0000;
    SumOfTwo(2);
    SumOfTwo(half);
    assert ShareOf(Int64.Wrap(m * 2), 4) == half;
    assert MachineShares(m, 4, [2, 2]) == [half, half];
    assert MachineLeft(m, 4, [2, 2]) < 0;
  }

  lemma SumOfTwo(x: int)
    requires Int64.Fits(2 * x)
    ensures Sum([x, x]) == 2 * x == MachineSum([x, x])
  {
    assert [x, x][..1] == [x] && [x][..0] == [];
    assert Sum([x]) == x == MachineSum([x]);
  }
}
