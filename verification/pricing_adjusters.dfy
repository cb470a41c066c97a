/** What the adjusters may and may not do: stay inside the plan's bounds, and
    not depend on the order they were listed in. */
module PricingAdjusters {
  import opened Options
  import opened Pricing
  import opened PricingBalance
  import PricingMonotone
  import Money
  import Sorting

  ghost predicate WithinBounds(amount: int, plan: Plan, nights: int) {
    && (plan.minPriceMinor.Some? ==> plan.minPriceMinor.value * nights <= amount)
    && (plan.maxPriceMinor.Some? ==> amount <= plan.maxPriceMinor.value * nights)
  }

  /** Clamping lands inside the bounds, moves nothing already inside, and moves
      the rest no further than the bound it broke. */
  lemma ClampIsNearestInBounds(amount: int, plan: Plan, nights: int)
    requires nights >= 0
    requires plan.minPriceMinor.Some? && plan.maxPriceMinor.Some?
             ==> plan.minPriceMinor.value <= plan.maxPriceMinor.value
    ensures WithinBounds(Clamp(amount, plan, nights), plan, nights)
    ensures forall other | WithinBounds(other, plan, nights) ::
              (amount <= Clamp(amount, plan, nights) <= other) || (other <= Clamp(amount, plan, nights) <= amount)
              || Clamp(amount, plan, nights) == amount
  {
    if plan.minPriceMinor.Some? && plan.maxPriceMinor.Some? {
      Money.MulLe(plan.minPriceMinor.value, plan.maxPriceMinor.value, nights);
    }
  }

  predicate Inside(w: Option<Window>, x: int) {
    w.Some? ==> w.value.from <= x <= w.value.to
  }

  /** The adjuster has a condition, and every condition it has contains the figure it
      reads, ends included. */
  predicate InWindow(a: Adjuster, r: Request) {
    && (a.occupancy.Some? || a.leadDays.Some?)
    && Inside(a.occupancy, r.occupancyBP) && Inside(a.leadDays, r.leadDays)
  }

  /** Once one adjuster has applied the subtotal is, and stays, within nights
      times the plan's floor and ceiling, whatever the others ask for; when none
      applies the subtotal is untouched. */
  lemma {:induction false} AdjustersRespectBounds(x: int, adjusters: seq<Adjuster>, plan: Plan, r: Request)
    requires r.Nights() >= 0
    requires plan.minPriceMinor.Some? && plan.maxPriceMinor.Some?
             ==> plan.minPriceMinor.value <= plan.maxPriceMinor.value
    ensures var out := Through(x, AdjusterStages(adjusters, plan, r));
            if exists i :: 0 <= i < |adjusters| && InWindow(adjusters[i], r)
            then WithinBounds(out, plan, r.Nights())
            else out == x
  {
    if adjusters != [] {
      var n := |adjusters| - 1;
      AdjustersRespectBounds(x, adjusters[..n], plan, r);
      var stages := AdjusterStages(adjusters, plan, r);
      assert stages[..n] == AdjusterStages(adjusters[..n], plan, r);
      var before := Through(x, stages[..n]);
      ClampIsNearestInBounds(before + AdjusterDelta(adjusters[n].change, before, r.Nights()), plan, r.Nights());
      assert stages[n] == AdjusterStage(adjusters[n], plan, r);
      if InWindow(adjusters[n], r) {
      } else if i :| 0 <= i < |adjusters| && InWindow(adjusters[i], r) {
        assert adjusters[..n][i] == adjusters[i];
      } else {
        forall i | 0 <= i < n ensures !InWindow(adjusters[..n][i], r) {
          assert adjusters[..n][i] == adjusters[i];
        }
      }
    }
  }

  /** No two rules share both priority and name, which the schema's unique name
      per category guarantees. */
  ghost predicate DistinctRules(adjusters: seq<Adjuster>) {
    forall i, j | 0 <= i < j < |adjusters| ::
      adjusters[i].priority != adjusters[j].priority || adjusters[i].name != adjusters[j].name
  }

  lemma DistinctRulesNeverTie(adjusters: seq<Adjuster>)
    requires DistinctRules(adjusters)
    ensures Sorting.NoTies(multiset(adjusters), AdjusterLeq)
  {
    forall x, y | x in multiset(adjusters) && y in multiset(adjusters)
                  && AdjusterLeq(x, y) && AdjusterLeq(y, x)
      ensures x == y
    {
      Sorting.StringLeqTotal(x.name, y.name);
      var i :| 0 <= i < |adjusters| && adjusters[i] == x;
      var j :| 0 <= j < |adjusters| && adjusters[j] == y;
    }
  }

  lemma SameStagesSamePrice(s: Snapshot, t: Snapshot, r: Request)
    requires t == s.(adjusters := t.adjusters) && Stages(s, r) == Stages(t, r)
    ensures Price(s, r) == Price(t, r)
  {
    assert Admit(s, r) == Admit(t, r);
    if Admit(s, r).Ok? {
      var (days, party) := Admit(s, r).value;
      assert Opening(s, r, days, party) == Opening(t, r, days, party);
      assert Compose(s, r, days, party) == Compose(t, r, days, party);
    }
  }

  /** Listing the same rules in another order prices every stay the same, line by
      line. */
  lemma PriceIgnoresAdjusterOrder(s: Snapshot, t: Snapshot, r: Request)
    requires t == s.(adjusters := t.adjusters)
    requires multiset(s.adjusters) == multiset(t.adjusters) && DistinctRules(s.adjusters)
    ensures Price(s, r) == Price(t, r)
  {
    PricingMonotone.AdjusterOrderIsTotal();
    DistinctRulesNeverTie(s.adjusters);
    Sorting.SortIgnoresInputOrder(s.adjusters, t.adjusters, AdjusterLeq);
    SameStagesSamePrice(s, t, r);
  }
}
