/** What each rule of the engine charges, said without the engine. */
module PricingRules {
  import opened Dates
  import opened Options
  import opened Pricing
  import Money
  import Sorting
  import M = PricingMonotone
  import PricingEngine
  import opened PricingAdjusters

  // ---- the night -----------------------------------------------------------------------------

  /** A night costs its base for the guests it includes; each further adult, each
      child's band, each pet and each vehicle adds its own rate, and nothing else
      does. */
  lemma NightAddsUp(d: RateDay, p: Party, pets: int, vehicles: int, band: AgeBand)
    requires pets >= 0 && vehicles >= 0
    ensures p.adults <= d.includedAdults ==> NightPrice(d, Party(p.adults, []), 0, 0) == d.baseMinor
    ensures var price := NightPrice(d, p, pets, vehicles);
            && NightPrice(d, Party(p.adults + 1, p.children), pets, vehicles)
               == price + (if p.adults >= d.includedAdults then d.adultExtraMinor else 0)
            && NightPrice(d, Party(p.adults, p.children + [band]), pets, vehicles) == price + band.pricePerNightMinor
            && NightPrice(d, p, pets + 1, vehicles) == price + d.petMinor
            && NightPrice(d, p, pets, vehicles + 1) == price + d.vehicleMinor
  {
    assert (p.children + [band])[..|p.children|] == p.children;
    OneMore(d.adultExtraMinor, p.adults - d.includedAdults);
    OneMore(d.petMinor, pets);
    OneMore(d.vehicleMinor, vehicles);
  }

  lemma OneMore(rate: int, count: int)
    ensures rate * (count + 1) == rate * count + rate
    ensures rate * 0 == 0
  {
  }

  // ---- the party -----------------------------------------------------------------------------

  predicate Holds(b: AgeBand, age: int) {
    b.ageFrom <= age <= b.ageTo
  }

  /** No age falls in two bands. */
  ghost predicate Apart(bands: seq<AgeBand>) {
    forall i, j, age | 0 <= i < |bands| && 0 <= j < |bands| && Holds(bands[i], age) && Holds(bands[j], age) ::
      bands[i] == bands[j]
  }

  lemma {:induction false} BandForHolds(bands: seq<AgeBand>, age: int)
    ensures BandFor(bands, age).Some? ==> BandFor(bands, age).value in bands && Holds(BandFor(bands, age).value, age)
    ensures BandFor(bands, age).None? ==> forall i | 0 <= i < |bands| :: !Holds(bands[i], age)
  {
    if bands != [] && !Holds(bands[0], age) {
      BandForHolds(bands[1..], age);
    }
  }

  lemma SameBand(x: seq<AgeBand>, y: seq<AgeBand>, age: int)
    requires multiset(x) == multiset(y) && Apart(x)
    ensures BandFor(x, age) == BandFor(y, age)
  {
    BandForHolds(x, age);
    BandForHolds(y, age);
    forall b ensures b in x <==> b in y {
      assert b in x <==> b in multiset(x);
    }
  }

  lemma {:induction false} SameParty(x: seq<AgeBand>, y: seq<AgeBand>, adults: int, ages: seq<int>)
    requires multiset(x) == multiset(y) && Apart(x)
    ensures Classify(x, adults, ages) == Classify(y, adults, ages)
  {
    if ages != [] {
      SameParty(x, y, adults, ages[..|ages| - 1]);
      SameBand(x, y, ages[|ages| - 1]);
    }
  }

  /** When no two bands share an age, the order bands are stored or sorted in, ties
      included, does not matter. */
  lemma PartyIgnoresBandOrder(s: Snapshot, r: Request)
    requires Apart(s.ageBands)
    ensures PartyOf(s, r) == Classify(s.ageBands, r.adults, r.children)
  {
    Sorting.StableSortSorts(s.ageBands, BandLeq);
    SameParty(s.ageBands, Sorting.StableSort(s.ageBands, BandLeq), r.adults, r.children);
  }

  function Unbanded(bands: seq<AgeBand>, ages: seq<int>): nat {
    if ages == [] then 0
    else Unbanded(bands, ages[..|ages| - 1]) + if BandFor(bands, ages[|ages| - 1]).None? then 1 else 0
  }

  /** Nobody is lost: each child is charged by a band that holds its age or counted as
      an adult, and only those no band holds are. */
  lemma {:induction false} EveryoneIsCounted(bands: seq<AgeBand>, adults: int, ages: seq<int>)
    ensures var p := Classify(bands, adults, ages);
            && p.adults == adults + Unbanded(bands, ages)
            && p.adults + |p.children| == adults + |ages|
            && forall i | 0 <= i < |p.children| ::
                 p.children[i] in bands && exists k | 0 <= k < |ages| :: Holds(p.children[i], ages[k])
  {
    if ages != [] {
      var n := |ages| - 1;
      EveryoneIsCounted(bands, adults, ages[..n]);
      BandForHolds(bands, ages[n]);
      var before, p := Classify(bands, adults, ages[..n]), Classify(bands, adults, ages);
      forall i | 0 <= i < |p.children|
        ensures p.children[i] in bands && exists k | 0 <= k < |ages| :: Holds(p.children[i], ages[k])
      {
        if i < |before.children| {
          var k :| 0 <= k < n && Holds(before.children[i], ages[..n][k]);
          assert Holds(p.children[i], ages[k]);
        } else {
          assert Holds(p.children[i], ages[n]);
        }
      }
    }
  }

  // ---- length of stay --------------------------------------------------------------------------

  /** Rule k governs: the longest threshold the stay reaches, and the first rule with
      it. */
  ghost predicate Governs(los: seq<LengthDiscount>, nights: int, k: nat) {
    && k < |los| && 0 < los[k].minNights <= nights
    && forall j | 0 <= j < |los| && los[j].minNights <= nights ::
         los[j].minNights < los[k].minNights || (los[j].minNights == los[k].minNights && k <= j)
  }

  lemma {:induction false} ThresholdIsLongest(los: seq<LengthDiscount>, nights: int)
    ensures var best := BestThreshold(los, nights);
            && best >= 0
            && (forall j | 0 <= j < |los| && los[j].minNights <= nights :: los[j].minNights <= best)
            && (best > 0 ==> best <= nights && exists j | 0 <= j < |los| :: los[j].minNights == best)
  {
    if los != [] {
      var n := |los| - 1;
      ThresholdIsLongest(los[..n], nights);
      assert forall j | 0 <= j < n :: los[..n][j] == los[j];
    }
  }

  lemma {:induction false} PercentIsTheFirst(los: seq<LengthDiscount>, threshold: int, k: nat)
    requires k < |los| && los[k].minNights == threshold
    requires forall j | 0 <= j < k :: los[j].minNights != threshold
    ensures PercentAt(los, threshold) == los[k].percentBP
  {
    if k > 0 {
      PercentIsTheFirst(los[1..], threshold, k - 1);
    }
  }

  /** The discount is the governing rule's percentage, and nothing when no rule
      governs. */
  lemma LongestStayRuleApplies(los: seq<LengthDiscount>, nights: int, x: int, k: nat)
    ensures Governs(los, nights, k) ==> LOSDelta(los, nights, x) == -Money.MulBP(x, los[k].percentBP)
    ensures (forall j: nat :: !Governs(los, nights, j)) ==> LOSDelta(los, nights, x) == 0
  {
    ThresholdIsLongest(los, nights);
    var best := BestThreshold(los, nights);
    if Governs(los, nights, k) {
      PercentIsTheFirst(los, best, k);
    }
    if best > 0 {
      var j := FirstAt(los, best);
      assert Governs(los, nights, j);
    }
  }

  lemma {:induction false} FirstAt(los: seq<LengthDiscount>, threshold: int) returns (k: nat)
    requires exists j | 0 <= j < |los| :: los[j].minNights == threshold
    ensures k < |los| && los[k].minNights == threshold && forall j | 0 <= j < k :: los[j].minNights != threshold
  {
    k := 0;
    if los[0].minNights != threshold {
      var j :| 0 <= j < |los| && los[j].minNights == threshold;
      assert los[1..][j - 1].minNights == threshold;
      var rest := FirstAt(los[1..], threshold);
      k := rest + 1;
      assert forall i | 0 < i < k :: los[i] == los[1..][i - 1];
    }
  }

  // ---- what the money stages add ---------------------------------------------------------------

  /** Every percentage is taken of the running subtotal and rounded once, half away
      from zero; amounts are taken as they stand. */
  lemma StagesAddWhatTheySay(x: int, bp: int, minor: int, nights: int, plan: Plan)
    ensures plan.derive == DerivedPercent(bp) ==> Money.IsRounded(x * bp, 10000, DeriveStage(plan).next(x) - x)
    ensures plan.derive == DerivedAmount(minor) ==> DeriveStage(plan).next(x) == x + minor
    ensures plan.derive == NotDerived ==> DeriveStage(plan).next(x) == x
    ensures Money.IsRounded(x * bp, 10000, x - CampaignStage(Some(Percent(bp))).next(x))
    ensures CampaignStage(Some(Fixed(minor))).next(x) == x - minor && CampaignStage(None).next(x) == x
    ensures Money.IsRounded(x * bp, 10000, x + AdjusterDelta(Factor(bp), x, nights))
    ensures AdjusterDelta(PerNight(minor), x, nights) == minor * nights
  {
    Money.DivRoundIsRounded(x * bp, 10000);
  }

  lemma {:induction false} IdleStagesDoNothing(run: Running, adjusters: seq<Adjuster>, plan: Plan, r: Request,
                                               code: string)
    ensures RunStages(run, AdjusterStages(adjusters, plan, r), code)
         == RunStages(run, AdjusterStages(Sorting.Keep(adjusters, a => InWindow(a, r)), plan, r), code)
  {
    if adjusters != [] {
      var n := |adjusters| - 1;
      var first, last := adjusters[..n], adjusters[n];
      IdleStagesDoNothing(run, first, plan, r, code);
      assert adjusters == first + [last];
      Sorting.KeepAppends(first, last, a => InWindow(a, r));
      LastStage(run, first, last, plan, r, code);
      LastStage(run, Sorting.Keep(first, a => InWindow(a, r)), last, plan, r, code);
    }
  }

  lemma LastStage(run: Running, adjusters: seq<Adjuster>, a: Adjuster, plan: Plan, r: Request, code: string)
    ensures RunStages(run, AdjusterStages(adjusters + [a], plan, r), code)
         == RunStage(RunStages(run, AdjusterStages(adjusters, plan, r), code), AdjusterStage(a, plan, r), code)
    ensures InWindow(a, r) || RunStages(run, AdjusterStages(adjusters + [a], plan, r), code)
                           == RunStages(run, AdjusterStages(adjusters, plan, r), code)
  {
    var stages := AdjusterStages(adjusters + [a], plan, r);
    assert stages[..|adjusters|] == AdjusterStages(adjusters, plan, r);
    assert stages[|adjusters|] == AdjusterStage(a, plan, r);
  }

  /** A quote depends only on the adjusters in their windows: striking every other one
      from the snapshot changes no line, no step and no total. */
  lemma OnlyAdjustersInWindowCount(s: Snapshot, t: Snapshot, r: Request)
    requires t == s.(adjusters := Sorting.Keep(s.adjusters, a => InWindow(a, r)))
    ensures Price(s, r) == Price(t, r)
  {
    M.AdjusterOrderIsTotal();
    Sorting.SortKeeps(s.adjusters, AdjusterLeq, a => InWindow(a, r));
    assert Admit(s, r) == Admit(t, r);
    if Admit(s, r).Ok? {
      var (days, party) := Admit(s, r).value;
      var code := s.plan.vatCode;
      var opening := Opening(s, r, days, party);
      PricingEngine.StagesInThree(s, r, opening);
      PricingEngine.StagesInThree(t, r, opening);
      IdleStagesDoNothing(RunStage(opening, DeriveStage(s.plan), code), OrderedAdjusters(s), s.plan, r, code);
      assert Compose(s, r, days, party) == Compose(t, r, days, party);
    }
  }

  /** Adjusters run by ascending priority and then by name, each as often as it is
      listed. */
  lemma AdjustersRunInOrder(s: Snapshot, i: nat, j: nat)
    requires i < j < |OrderedAdjusters(s)|
    ensures multiset(OrderedAdjusters(s)) == multiset(s.adjusters)
    ensures var a, b := OrderedAdjusters(s)[i], OrderedAdjusters(s)[j];
            a.priority < b.priority || (a.priority == b.priority && Sorting.StringLeq(a.name, b.name))
  {
    M.AdjusterOrderIsTotal();
    Sorting.StableSortSorts(s.adjusters, AdjusterLeq);
  }

  // ---- stay rules ------------------------------------------------------------------------------

  lemma FullMask(on: seq<bool>, high: int)
    requires |on| == 7
    ensures MaskOf(on) + 128 * high == 127 ==> forall w | 0 <= w < 7 :: on[w]
  {
    assert MaskOf(on) <= 127;
  }

  /** A stay is sellable exactly when no night is closed, its length is allowed from
      its first night, arrivals are open and allowed on that weekday, and the last
      night does not bar departure. A mask of zero bars no weekday, and the bits above
      the seven name none. */
  lemma SellableExactlyWhen(days: seq<RateDay>, arrival: int, on: seq<bool>, high: int)
    requires days != [] && |on| == 7 && days[0].arrivalMask == MaskOf(on) + 128 * high
    ensures ValidateStay(days, arrival) == None <==>
              && (forall i | 0 <= i < |days| :: !days[i].closed)
              && days[0].minStay <= |days| && (days[0].maxStay <= 0 || |days| <= days[0].maxStay)
              && !days[0].closedToArrival && !days[|days| - 1].closedToDeparture
              && (on[Weekday(arrival)] || days[0].arrivalMask == 0)
  {
    MaskHasItsWeekdays(on, high, arrival);
    FullMask(on, high);
  }
}
