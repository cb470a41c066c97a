/** Raising a rate or growing the party never lowers the price, despite the
    rounding, clamping and discounting in between. */
module PricingMonotone {
  import opened Options
  import opened Pricing
  import opened PricingBalance
  import Money
  import Sorting

  // ---- one stage never reverses two amounts -------------------------------------------

  /** What the schema and the admin form allow: a derived plan takes at most
      everything off, factors are multipliers, discounts are at most 100%, and a
      plan's floor is below its ceiling. */
  ghost predicate Sensible(s: Snapshot) {
    && (s.plan.derive.DerivedPercent? ==> s.plan.derive.bp >= -10000)
    && (forall i | 0 <= i < |s.adjusters| ::
          s.adjusters[i].change.Factor? ==> s.adjusters[i].change.bp >= 0)
    && (s.plan.minPriceMinor.Some? && s.plan.maxPriceMinor.Some?
        ==> s.plan.minPriceMinor.value <= s.plan.maxPriceMinor.value)
    && (forall i | 0 <= i < |s.los| :: s.los[i].percentBP <= 10000)
    && (s.campaign.Some? && s.campaign.value.Percent? ==> s.campaign.value.bp <= 10000)
  }

  ghost predicate Below(a: Stage, b: Stage) {
    forall x, y :: x <= y ==> a.next(x) <= b.next(y)
  }

  lemma {:induction false} ThroughKeepsOrder(x: int, a: seq<Stage>, y: int, b: seq<Stage>)
    requires x <= y && |a| == |b|
    requires forall i | 0 <= i < |a| :: Below(a[i], b[i])
    ensures Through(x, a) <= Through(y, b)
  {
    if a != [] {
      var n := |a| - 1;
      ThroughKeepsOrder(x, a[..n], y, b[..n]);
      assert Below(a[n], b[n]);
    }
  }

  lemma DeriveKeepsOrder(plan: Plan)
    requires plan.derive.DerivedPercent? ==> plan.derive.bp >= -10000
    ensures Below(DeriveStage(plan), DeriveStage(plan))
  {
    forall x, y | x <= y ensures x + DeriveDelta(plan, x) <= y + DeriveDelta(plan, y) {
      if plan.derive.DerivedPercent? {
        Money.AddPercentMonotone(x, y, plan.derive.bp);
      }
    }
  }

  lemma ClampKeepsOrder(x: int, y: int, plan: Plan, nights: int)
    requires x <= y && nights >= 0
    requires plan.minPriceMinor.Some? && plan.maxPriceMinor.Some?
             ==> plan.minPriceMinor.value <= plan.maxPriceMinor.value
    ensures Clamp(x, plan, nights) <= Clamp(y, plan, nights)
  {
    if plan.minPriceMinor.Some? && plan.maxPriceMinor.Some? {
      Money.MulLe(plan.minPriceMinor.value, plan.maxPriceMinor.value, nights);
    }
  }

  ghost predicate SameContext(r: Request, q: Request) {
    r.stay == q.stay && r.leadDays == q.leadDays && r.occupancyBP == q.occupancyBP
  }

  lemma AdjusterKeepsOrder(a: Adjuster, plan: Plan, r: Request, q: Request)
    requires SameContext(r, q) && r.Nights() >= 0
    requires a.change.Factor? ==> a.change.bp >= 0
    requires plan.minPriceMinor.Some? && plan.maxPriceMinor.Some?
             ==> plan.minPriceMinor.value <= plan.maxPriceMinor.value
    ensures Below(AdjusterStage(a, plan, r), AdjusterStage(a, plan, q))
  {
    var nights := r.Nights();
    assert Applies(a, r) == Applies(a, q);
    forall x, y | x <= y
      ensures AdjusterStage(a, plan, r).next(x) <= AdjusterStage(a, plan, q).next(y)
    {
      DeltaKeepsOrder(a.change, x, y, nights);
      ClampKeepsOrder(x + AdjusterDelta(a.change, x, nights), y + AdjusterDelta(a.change, y, nights), plan, nights);
    }
  }

  lemma DeltaKeepsOrder(c: Change, x: int, y: int, nights: int)
    requires x <= y && (c.Factor? ==> c.bp >= 0)
    ensures x + AdjusterDelta(c, x, nights) <= y + AdjusterDelta(c, y, nights)
  {
    if c.Factor? {
      Money.MulBPMonotone(x, y, c.bp);
    }
  }

  lemma DiscountKeepsOrder(x: int, y: int, bp: int)
    requires x <= y && bp <= 10000
    ensures x - Money.MulBP(x, bp) <= y - Money.MulBP(y, bp)
  {
    Money.AddPercentMonotone(x, y, -bp);
    Money.MulBPNegates(x, bp);
    Money.MulBPNegates(y, bp);
  }

  lemma {:induction false} PercentIsListed(los: seq<LengthDiscount>, threshold: int)
    requires forall i | 0 <= i < |los| :: los[i].percentBP <= 10000
    ensures PercentAt(los, threshold) <= 10000
  {
    if los != [] {
      PercentIsListed(los[1..], threshold);
    }
  }

  lemma LOSKeepsOrder(los: seq<LengthDiscount>, nights: int)
    requires forall i | 0 <= i < |los| :: los[i].percentBP <= 10000
    ensures Below(LOSStage(los, nights), LOSStage(los, nights))
  {
    var best := BestThreshold(los, nights);
    PercentIsListed(los, best);
    forall x, y | x <= y ensures x + LOSDelta(los, nights, x) <= y + LOSDelta(los, nights, y) {
      DiscountKeepsOrder(x, y, PercentAt(los, best));
    }
  }

  lemma CampaignKeepsOrder(c: Option<Discount>)
    requires c.Some? && c.value.Percent? ==> c.value.bp <= 10000
    ensures Below(CampaignStage(c), CampaignStage(c))
  {
    forall x, y | x <= y ensures x + CampaignDelta(c, x) <= y + CampaignDelta(c, y) {
      if c.Some? && c.value.Percent? {
        DiscountKeepsOrder(x, y, c.value.bp);
      }
    }
  }

  lemma OrderedAdjustersAreListed(s: Snapshot, i: nat)
    requires i < |OrderedAdjusters(s)|
    ensures OrderedAdjusters(s)[i] in s.adjusters
  {
    AdjusterOrderIsTotal();
    Sorting.StableSortSorts(s.adjusters, AdjusterLeq);
    assert OrderedAdjusters(s)[i] in multiset(OrderedAdjusters(s));
  }

  lemma AdjusterOrderIsTotal()
    ensures Sorting.TotalPreorder(AdjusterLeq)
  {
    forall a, b ensures AdjusterLeq(a, b) || AdjusterLeq(b, a) {
      Sorting.StringLeqTotal(a.name, b.name);
    }
    forall a, b, c | AdjusterLeq(a, b) && AdjusterLeq(b, c) ensures AdjusterLeq(a, c) {
      if Sorting.StringLeq(a.name, b.name) && Sorting.StringLeq(b.name, c.name) {
        Sorting.StringLeqTransitive(a.name, b.name, c.name);
      }
    }
  }

  /** Two snapshots that differ only in their nights run order-preserving stages. */
  lemma StagesKeepOrder(s: Snapshot, t: Snapshot, r: Request, q: Request)
    requires Sensible(s) && t == s.(days := t.days)
    requires SameContext(r, q) && r.Nights() >= 0
    ensures |Stages(s, r)| == |Stages(t, q)|
    ensures forall i | 0 <= i < |Stages(s, r)| :: Below(Stages(s, r)[i], Stages(t, q)[i])
  {
    var adjusters := OrderedAdjusters(s);
    var n := |adjusters|;
    DeriveKeepsOrder(s.plan);
    LOSKeepsOrder(s.los, r.Nights());
    CampaignKeepsOrder(s.campaign);
    forall i | 0 <= i < n
      ensures Below(AdjusterStage(adjusters[i], s.plan, r), AdjusterStage(adjusters[i], s.plan, q))
    {
      OrderedAdjustersAreListed(s, i);
      AdjusterKeepsOrder(adjusters[i], s.plan, r, q);
    }
    assert OrderedAdjusters(t) == adjusters;
    forall i | 0 <= i < |Stages(s, r)| ensures Below(Stages(s, r)[i], Stages(t, q)[i]) {
      StageAt(s, r, i);
      StageAt(t, q, i);
    }
  }

  lemma StageAt(s: Snapshot, r: Request, i: nat)
    requires i < |Stages(s, r)|
    ensures var n := |OrderedAdjusters(s)|;
            && |Stages(s, r)| == n + 4
            && Stages(s, r)[i] ==
               if i == 0 then DeriveStage(s.plan)
               else if i <= n then AdjusterStage(OrderedAdjusters(s)[i - 1], s.plan, r)
               else if i == n + 1 then LOSStage(s.los, r.Nights())
               else if i == n + 2 then CampaignStage(s.campaign)
               else FloorStage()
  {
  }

  // ---- the nights ---------------------------------------------------------------------

  ghost predicate RatesAtLeast(d: RateDay, e: RateDay) {
    && d.includedAdults == e.includedAdults
    && d.baseMinor <= e.baseMinor
    && 0 <= d.adultExtraMinor <= e.adultExtraMinor
    && 0 <= d.petMinor <= e.petMinor
    && 0 <= d.vehicleMinor <= e.vehicleMinor
  }

  lemma NightKeepsOrder(d: RateDay, e: RateDay, p: Party, o: Party, pets: int, morePets: int,
                        vehicles: int, moreVehicles: int)
    requires RatesAtLeast(d, e)
    requires p.adults <= o.adults && SumBands(p.children) <= SumBands(o.children)
    requires pets <= morePets && vehicles <= moreVehicles
    ensures NightPrice(d, p, pets, vehicles) <= NightPrice(e, o, morePets, moreVehicles)
  {
    ExtraKeepsOrder(d.adultExtraMinor, e.adultExtraMinor, p.adults - d.includedAdults, o.adults - d.includedAdults);
    ExtraKeepsOrder(d.petMinor, e.petMinor, pets, morePets);
    ExtraKeepsOrder(d.vehicleMinor, e.vehicleMinor, vehicles, moreVehicles);
  }

  lemma ExtraKeepsOrder(price: int, higher: int, count: int, more: int)
    requires 0 <= price <= higher && count <= more
    ensures (if count > 0 then price * count else 0) <= (if more > 0 then higher * more else 0)
  {
    if count > 0 {
      Money.MulLe(price, higher, count);
      Money.MulLe(count, more, higher);
    } else if more > 0 {
      Money.MulLe(0, higher, more);
    }
  }

  lemma {:induction false} NightsKeepOrder(a: seq<RateDay>, b: seq<RateDay>, p: Party, o: Party, r: Request, q: Request)
    requires |a| == |b| && forall i | 0 <= i < |a| :: RatesAtLeast(a[i], b[i])
    requires p.adults <= o.adults && SumBands(p.children) <= SumBands(o.children)
    requires r.pets <= q.pets && r.vehicles <= q.vehicles
    ensures SumNights(a, p, r.pets, r.vehicles) <= SumNights(b, o, q.pets, q.vehicles)
  {
    if a != [] {
      var n := |a| - 1;
      NightsKeepOrder(a[..n], b[..n], p, o, r, q);
      NightKeepsOrder(a[n], b[n], p, o, r.pets, q.pets, r.vehicles, q.vehicles);
    }
  }

  // ---- the party ------------------------------------------------------------------------

  ghost predicate BandsCostSomething(bands: seq<AgeBand>) {
    forall i | 0 <= i < |bands| :: bands[i].pricePerNightMinor >= 0
  }

  lemma {:induction false} BandForIsListed(bands: seq<AgeBand>, age: int)
    requires BandsCostSomething(bands)
    ensures BandFor(bands, age).Some? ==> BandFor(bands, age).value.pricePerNightMinor >= 0
  {
    if bands != [] {
      BandForIsListed(bands[1..], age);
    }
  }

  ghost predicate PartyAtMost(p: Party, o: Party) {
    p.adults <= o.adults && SumBands(p.children) <= SumBands(o.children)
  }

  /** One more child at the end of both lists, or of the larger only. */
  lemma AppendKeepsOrder(bands: seq<AgeBand>, adults: int, a: seq<int>, more: int, b: seq<int>, age: int)
    requires BandsCostSomething(bands) && PartyAtMost(Classify(bands, adults, a), Classify(bands, more, b))
    ensures PartyAtMost(Classify(bands, adults, a + [age]), Classify(bands, more, b + [age]))
    ensures PartyAtMost(Classify(bands, adults, a), Classify(bands, more, b + [age]))
  {
    assert (a + [age])[..|a|] == a && (b + [age])[..|b|] == b;
    SumBandsAppends(bands, Classify(bands, adults, a).children, age);
    SumBandsAppends(bands, Classify(bands, more, b).children, age);
  }

  lemma {:induction false} MoreAdults(bands: seq<AgeBand>, adults: int, more: int, a: seq<int>)
    requires BandsCostSomething(bands) && adults <= more
    ensures PartyAtMost(Classify(bands, adults, a), Classify(bands, more, a))
  {
    if a != [] {
      var n := |a| - 1;
      MoreAdults(bands, adults, more, a[..n]);
      AppendKeepsOrder(bands, adults, a[..n], more, a[..n], a[n]);
      assert a == a[..n] + [a[n]];
    }
  }

  lemma {:induction false} MoreChildren(bands: seq<AgeBand>, adults: int, more: int, a: seq<int>, extra: seq<int>)
    requires BandsCostSomething(bands) && adults <= more
    ensures PartyAtMost(Classify(bands, adults, a), Classify(bands, more, a + extra))
  {
    if extra == [] {
      MoreAdults(bands, adults, more, a);
      assert a + extra == a;
    } else {
      var n := |extra| - 1;
      MoreChildren(bands, adults, more, a, extra[..n]);
      AppendKeepsOrder(bands, adults, a, more, a + extra[..n], extra[n]);
      assert a + extra == (a + extra[..n]) + [extra[n]];
    }
  }

  lemma LastApart(xs: seq<int>, b: seq<int>, n: nat)
    requires |b| == n + 1
    ensures xs + b == (xs + b[..n]) + [b[n]]
  {
  }

  /** Inserting children anywhere in the list, or adding adults, only adds. */
  lemma {:induction false} ClassifyGrows(bands: seq<AgeBand>, adults: int, more: int,
                                         a: seq<int>, extra: seq<int>, b: seq<int>)
    requires BandsCostSomething(bands) && adults <= more
    ensures PartyAtMost(Classify(bands, adults, a + b), Classify(bands, more, a + extra + b))
  {
    if b == [] {
      MoreChildren(bands, adults, more, a, extra);
      assert a + b == a && a + extra + b == a + extra;
    } else {
      var n := |b| - 1;
      ClassifyGrows(bands, adults, more, a, extra, b[..n]);
      AppendKeepsOrder(bands, adults, a + b[..n], more, a + extra + b[..n], b[n]);
      LastApart(a, b, n);
      LastApart(a + extra, b, n);
    }
  }

  lemma SumBandsAppends(bands: seq<AgeBand>, children: seq<AgeBand>, age: int)
    requires BandsCostSomething(bands)
    ensures BandFor(bands, age).Some? ==>
              var band := BandFor(bands, age).value;
              band.pricePerNightMinor >= 0
              && SumBands(children + [band]) == SumBands(children) + band.pricePerNightMinor
  {
    BandForIsListed(bands, age);
    if BandFor(bands, age).Some? {
      assert (children + [BandFor(bands, age).value])[..|children|] == children;
    }
  }

  lemma SortedBandsCostSomething(s: Snapshot)
    requires BandsCostSomething(s.ageBands)
    ensures BandsCostSomething(Sorting.StableSort(s.ageBands, BandLeq))
  {
    var sorted := Sorting.StableSort(s.ageBands, BandLeq);
    Sorting.StableSortSorts(s.ageBands, BandLeq);
    forall i | 0 <= i < |sorted| ensures sorted[i].pricePerNightMinor >= 0 {
      assert sorted[i] in multiset(sorted);
      assert sorted[i] in s.ageBands;
    }
  }

  // ---- the theorem ------------------------------------------------------------------------

  /** q is r with people, pets or vehicles added, the children anywhere in the list. */
  ghost predicate Grows(r: Request, q: Request, a: seq<int>, extra: seq<int>, b: seq<int>) {
    && SameContext(r, q)
    && r.adults <= q.adults && r.pets <= q.pets && r.vehicles <= q.vehicles
    && r.children == a + b && q.children == a + extra + b
  }

  /** For any stay, any sensible plan and any party: if rates on the nights of the
      stay rise (or stay) and the party grows (or stays) and both are sold, the
      total does not fall. */
  lemma PriceIsMonotone(s: Snapshot, t: Snapshot, r: Request, q: Request,
                        a: seq<int>, extra: seq<int>, b: seq<int>)
    requires Sensible(s) && BandsCostSomething(s.ageBands)
    requires t == s.(days := t.days)
    requires forall d | r.stay.Covers(d) && d in s.days && d in t.days :: RatesAtLeast(s.days[d], t.days[d])
    requires Grows(r, q, a, extra, b)
    ensures Price(s, r).Ok? && Price(t, q).Ok? ==>
              Price(s, r).value.totals.grossMinor <= Price(t, q).value.totals.grossMinor
  {
    if Price(s, r).Ok? && Price(t, q).Ok? {
      TotalIsPipeline(s, r);
      TotalIsPipeline(t, q);
      SortedBandsCostSomething(s);
      ClassifyGrows(Sorting.StableSort(s.ageBands, BandLeq), r.adults, q.adults, a, extra, b);
      StagesKeepOrder(s, t, r, q);
      NightsRise(s, t, r, q);
      ThroughKeepsOrder(SumNights(Admit(s, r).value.0, Admit(s, r).value.1, r.pets, r.vehicles), Stages(s, r),
                        SumNights(Admit(t, q).value.0, Admit(t, q).value.1, q.pets, q.vehicles), Stages(t, q));
    }
  }

  lemma NightsRise(s: Snapshot, t: Snapshot, r: Request, q: Request)
    requires Admit(s, r).Ok? && Admit(t, q).Ok? && SameContext(r, q)
    requires forall d | r.stay.Covers(d) && d in s.days && d in t.days :: RatesAtLeast(s.days[d], t.days[d])
    requires PartyOf(s, r).adults <= PartyOf(t, q).adults
    requires SumBands(PartyOf(s, r).children) <= SumBands(PartyOf(t, q).children)
    requires r.pets <= q.pets && r.vehicles <= q.vehicles
    ensures SumNights(Admit(s, r).value.0, Admit(s, r).value.1, r.pets, r.vehicles)
         <= SumNights(Admit(t, q).value.0, Admit(t, q).value.1, q.pets, q.vehicles)
  {
    var (a, p) := Admit(s, r).value;
    var (b, o) := Admit(t, q).value;
    forall i | 0 <= i < |a| ensures RatesAtLeast(a[i], b[i]) {
      assert r.stay.Covers(r.stay.arrival + i);
    }
    NightsKeepOrder(a, b, p, o, r, q);
  }
}
