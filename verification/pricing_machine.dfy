/** Pricing on the machine's integers: what the request validators are for. */
module PricingMachine {
  import opened Dates
  import opened Options
  import opened Pricing
  import Int64
  import Money
  import Sorting

  // ---- the validators -----------------------------------------------------------------------

  const MAX_PARTY: int := 60
  const MAX_PETS: int := 20
  const MAX_VEHICLES: int := 20
  const MAX_STAY_NIGHTS: int := 365

  datatype PartyError = NoAdult | NegativeCount | TooManyGuests | TooManyPetsOrVehicles

  function ValidateParty(adults: int, children: int, pets: int, vehicles: int): Option<PartyError> {
    if adults < 1 then Some(NoAdult)
    else if children < 0 || pets < 0 || vehicles < 0 then Some(NegativeCount)
    else if adults > MAX_PARTY || children > MAX_PARTY || adults + children > MAX_PARTY then Some(TooManyGuests)
    else if pets > MAX_PETS || vehicles > MAX_VEHICLES then Some(TooManyPetsOrVehicles)
    else None
  }

  /** Up to sixty guests, one of them an adult, twenty pets and twenty vehicles, and each
      refusal for its own reason. */
  lemma PartyAcceptedExactlyWhen(adults: int, children: int, pets: int, vehicles: int)
    ensures var e := ValidateParty(adults, children, pets, vehicles);
            && (e == None <==>
                  && adults >= 1 && children >= 0 && pets >= 0 && vehicles >= 0
                  && adults + children <= 60 && pets <= 20 && vehicles <= 20)
            && (e == Some(NoAdult) <==> adults <= 0)
            && (e == Some(NegativeCount) <==> adults > 0 && (children < 0 || pets < 0 || vehicles < 0))
            && (e == Some(TooManyGuests) <==>
                  adults > 0 && children >= 0 && pets >= 0 && vehicles >= 0 && adults + children > 60)
  {
  }

  predicate Validated(r: Request) {
    ValidateParty(r.adults, |r.children|, r.pets, r.vehicles) == None && r.Nights() <= MAX_STAY_NIGHTS
  }

  // ---- the nights, in 64 bits -----------------------------------------------------------------

  /** addTo: it panics where Add refuses. */
  function AddTo(sum: Int64.Checked, x: int): (r: Int64.Checked)
    requires Int64.Fits(x) && (sum.Exact? ==> Int64.Fits(sum.value))
    ensures r.Exact? ==> Int64.Fits(r.value)
  {
    if sum.Overflow? then sum else Int64.Add(sum.value, x)
  }

  predicate FieldsFit(d: RateDay) {
    && Int64.Fits(d.baseMinor) && Int64.Fits(d.adultExtraMinor)
    && Int64.Fits(d.petMinor) && Int64.Fits(d.vehicleMinor)
  }

  predicate BandsFit(bands: seq<AgeBand>) {
    forall i | 0 <= i < |bands| :: Int64.Fits(bands[i].pricePerNightMinor)
  }

  function AddBands(sum: Int64.Checked, bands: seq<AgeBand>): (r: Int64.Checked)
    requires BandsFit(bands) && (sum.Exact? ==> Int64.Fits(sum.value))
    ensures r.Exact? ==> Int64.Fits(r.value)
  {
    if bands == [] then sum
    else AddTo(AddBands(sum, bands[..|bands| - 1]), bands[|bands| - 1].pricePerNightMinor)
  }

  /** The product of a rate and a count wraps unseen; only the additions look. */
  function AddTimes(sum: Int64.Checked, rate: int, count: int): (r: Int64.Checked)
    requires sum.Exact? ==> Int64.Fits(sum.value)
    ensures r.Exact? ==> Int64.Fits(r.value)
  {
    if count > 0 then AddTo(sum, Int64.Wrap(rate * count)) else sum
  }

  function GuestsMachine(d: RateDay, party: Party): (r: Int64.Checked)
    requires FieldsFit(d) && BandsFit(party.children)
    ensures r.Exact? ==> Int64.Fits(r.value)
  {
    AddBands(AddTimes(Int64.Exact(d.baseMinor), d.adultExtraMinor, party.adults - d.includedAdults), party.children)
  }

  function NightMachine(d: RateDay, party: Party, pets: int, vehicles: int): (r: Int64.Checked)
    requires FieldsFit(d) && BandsFit(party.children)
    ensures r.Exact? ==> Int64.Fits(r.value)
  {
    AddTimes(AddTimes(GuestsMachine(d, party), d.petMinor, pets), d.vehicleMinor, vehicles)
  }

  function NightsMachine(days: seq<RateDay>, party: Party, pets: int, vehicles: int): (r: Int64.Checked)
    requires (forall i | 0 <= i < |days| :: FieldsFit(days[i])) && BandsFit(party.children)
    ensures r.Exact? ==> Int64.Fits(r.value)
  {
    if days == [] then Int64.Exact(0)
    else
      var before := NightsMachine(days[..|days| - 1], party, pets, vehicles);
      var night := NightMachine(days[|days| - 1], party, pets, vehicles);
      if night.Overflow? then night else AddTo(before, night.value)
  }

  predicate DerivationFits(d: Derivation) {
    match d
    case NotDerived => true
    case DerivedPercent(bp) => Int64.Fits(bp)
    case DerivedAmount(minor) => Int64.Fits(minor)
  }

  function DeriveDeltaMachine(plan: Plan, subtotal: int): (delta: int)
    requires Int64.Fits(subtotal) && DerivationFits(plan.derive)
    ensures Int64.Fits(delta)
  {
    match plan.derive
    case NotDerived => 0
    case DerivedPercent(bp) => Money.MulBPMachine(subtotal, bp)
    case DerivedAmount(minor) => minor
  }

  function DerivedMachine(plan: Plan, subtotal: Int64.Checked): Int64.Checked
    requires (subtotal.Exact? ==> Int64.Fits(subtotal.value)) && DerivationFits(plan.derive)
  {
    if subtotal.Overflow? then subtotal else AddTo(subtotal, DeriveDeltaMachine(plan, subtotal.value))
  }

  // ---- the bounds --------------------------------------------------------------------------------

  /** Ten million kronor a night, and derived plans up to ten times their parent. */
  const RATE_BOUND: int := 1_000_000_000
  const DERIVE_BOUND: int := 100_000
  const INT32_BOUND: int := 0x8000_0000

  predicate Small(x: int) {
    -RATE_BOUND <= x <= RATE_BOUND
  }

  predicate SmallDay(d: RateDay) {
    && Small(d.baseMinor) && Small(d.adultExtraMinor) && Small(d.petMinor) && Small(d.vehicleMinor)
    && d.includedAdults >= 0
  }

  predicate SmallBands(bands: seq<AgeBand>) {
    forall i | 0 <= i < |bands| :: Small(bands[i].pricePerNightMinor)
  }

  predicate SmallDerivation(d: Derivation) {
    match d
    case NotDerived => true
    case DerivedPercent(bp) => -DERIVE_BOUND <= bp <= DERIVE_BOUND
    case DerivedAmount(minor) => -INT32_BOUND <= minor <= INT32_BOUND
  }

  /** The sum is the number it should be, and within k times the bound. */
  ghost predicate Good(c: Int64.Checked, value: int, k: int) {
    c == Int64.Exact(value) && -(k * RATE_BOUND) <= value <= k * RATE_BOUND
  }

  lemma AddSmall(c: Int64.Checked, value: int, k: int, x: int, n: int)
    requires Good(c, value, k) && 0 <= k && 0 <= n && k + n <= 100_000
    requires -(n * RATE_BOUND) <= x <= n * RATE_BOUND
    ensures Int64.Fits(x) && Int64.Fits(value) && Good(AddTo(c, x), value + x, k + n)
  {
  }

  lemma ProductAtMost(p: nat, a: nat, q: nat, b: nat)
    requires p <= a && q <= b
    ensures p * q <= a * b
  {
    Int64.Distribute(a, p, q);
    Int64.Distribute(b, q, a);
    assert (a - p) * q >= 0 && (b - q) * a >= 0;
  }

  lemma TimesAtMost(x: int, a: int, y: int, b: int)
    requires 0 <= a && 0 <= b && -a <= x <= a && -b <= y <= b
    ensures -(a * b) <= x * y <= a * b
  {
    Int64.AbsMul(x, y);
    ProductAtMost(Int64.Abs(x), a, Int64.Abs(y), b);
  }

  lemma TimesSmall(rate: int, count: int, most: int)
    requires Small(rate) && 0 <= count <= most
    ensures -(most * RATE_BOUND) <= rate * count <= most * RATE_BOUND
  {
    TimesAtMost(rate, RATE_BOUND, count, most);
  }

  /** What a count of something adds, in exact arithmetic. */
  function Extra(rate: int, count: int): int {
    if count > 0 then rate * count else 0
  }

  function Guests(d: RateDay, party: Party): int {
    d.baseMinor + Extra(d.adultExtraMinor, party.adults - d.includedAdults) + SumBands(party.children)
  }

  lemma NightPriceAdds(d: RateDay, party: Party, pets: int, vehicles: int)
    ensures NightPrice(d, party, pets, vehicles)
         == Guests(d, party) + Extra(d.petMinor, pets) + Extra(d.vehicleMinor, vehicles)
  {
  }

  lemma AddTimesSmall(c: Int64.Checked, value: int, k: int, rate: int, count: int, most: int)
    requires Good(c, value, k) && 0 <= k && 0 <= most && k + most <= 100_000
    requires Small(rate) && count <= most
    ensures Int64.Fits(value)
    ensures Good(AddTimes(c, rate, count), value + Extra(rate, count), k + most)
  {
    if count > 0 {
      TimesSmall(rate, count, most);
      AddSmall(c, value, k, rate * count, most);
    }
  }

  lemma {:induction false} AddBandsSmall(c: Int64.Checked, value: int, k: int, bands: seq<AgeBand>)
    requires Good(c, value, k) && 0 <= k && k + |bands| <= 100_000 && SmallBands(bands)
    ensures Int64.Fits(value) && BandsFit(bands)
    ensures Good(AddBands(c, bands), value + SumBands(bands), k + |bands|)
  {
    if bands != [] {
      var n := |bands| - 1;
      AddBandsSmall(c, value, k, bands[..n]);
      AddSmall(AddBands(c, bands[..n]), value + SumBands(bands[..n]), k + n, bands[n].pricePerNightMinor, 1);
    }
  }

  lemma NightIsExact(d: RateDay, party: Party, pets: int, vehicles: int)
    requires SmallDay(d) && SmallBands(party.children) && party.adults + |party.children| <= MAX_PARTY
    requires 0 <= party.adults && pets <= MAX_PETS && vehicles <= MAX_VEHICLES
    ensures FieldsFit(d) && BandsFit(party.children)
    ensures Good(NightMachine(d, party, pets, vehicles), NightPrice(d, party, pets, vehicles), 101)
  {
    GuestsAreExact(d, party);
    var sum, value := GuestsMachine(d, party), Guests(d, party);
    AddTimesSmall(sum, value, 61, d.petMinor, pets, MAX_PETS);
    sum, value := AddTimes(sum, d.petMinor, pets), value + Extra(d.petMinor, pets);
    AddTimesSmall(sum, value, 81, d.vehicleMinor, vehicles, MAX_VEHICLES);
    NightPriceAdds(d, party, pets, vehicles);
  }

  lemma GuestsAreExact(d: RateDay, party: Party)
    requires SmallDay(d) && SmallBands(party.children) && party.adults + |party.children| <= MAX_PARTY
    requires 0 <= party.adults
    ensures FieldsFit(d) && BandsFit(party.children)
    ensures Good(GuestsMachine(d, party), Guests(d, party), 61)
  {
    var kids := |party.children|;
    var base, over := Int64.Exact(d.baseMinor), party.adults - d.includedAdults;
    AddTimesSmall(base, d.baseMinor, 1, d.adultExtraMinor, over, MAX_PARTY - kids);
    var sum, value := AddTimes(base, d.adultExtraMinor, over), d.baseMinor + Extra(d.adultExtraMinor, over);
    AddBandsSmall(sum, value, 61 - kids, party.children);
  }

  lemma {:induction false} NightsAreExact(days: seq<RateDay>, party: Party, pets: int, vehicles: int)
    requires |days| <= MAX_STAY_NIGHTS && forall i | 0 <= i < |days| :: SmallDay(days[i])
    requires SmallBands(party.children) && party.adults + |party.children| <= MAX_PARTY
    requires 0 <= party.adults && pets <= MAX_PETS && vehicles <= MAX_VEHICLES
    ensures (forall i | 0 <= i < |days| :: FieldsFit(days[i])) && BandsFit(party.children)
    ensures Good(NightsMachine(days, party, pets, vehicles), SumNights(days, party, pets, vehicles), 101 * |days|)
  {
    forall i | 0 <= i < |days| ensures FieldsFit(days[i]) {
      NightIsExact(days[i], party, pets, vehicles);
    }
    if days == [] {
      NightIsExact(RateDay(0, 0, 0, 0, 0, 0, 0, 0, 0, 0, false, false, false), party, pets, vehicles);
    } else {
      var n := |days| - 1;
      NightsAreExact(days[..n], party, pets, vehicles);
      NightIsExact(days[n], party, pets, vehicles);
      AddSmall(NightsMachine(days[..n], party, pets, vehicles), SumNights(days[..n], party, pets, vehicles), 101 * n,
               NightPrice(days[n], party, pets, vehicles), 101);
    }
  }

  lemma PercentOfSmall(subtotal: int, bp: int)
    requires -(36_865 * RATE_BOUND) <= subtotal <= 36_865 * RATE_BOUND
    requires -DERIVE_BOUND <= bp <= DERIVE_BOUND
    ensures Int64.MIN + 5000 <= subtotal * bp <= Int64.MAX - 5000
  {
    TimesAtMost(subtotal, 36_865 * RATE_BOUND, bp, DERIVE_BOUND);
  }

  /** A derived price is a sum of two numbers far from the limits. */
  lemma DerivedIsExact(plan: Plan, c: Int64.Checked, subtotal: int)
    requires Good(c, subtotal, 36_865) && SmallDerivation(plan.derive)
    ensures Int64.Fits(subtotal)
    ensures DerivedMachine(plan, c) == Int64.Exact(DeriveStage(plan).next(subtotal))
  {
    match plan.derive
    case NotDerived =>
    case DerivedPercent(bp) =>
      PercentOfSmall(subtotal, bp);
      Money.MulBPMachineExact(subtotal, bp);
      Money.DivRoundBounds(subtotal * bp, 10000, 1_000_000_000_000_000);
    case DerivedAmount(minor) =>
  }

  lemma {:induction false} ClassifyCounts(bands: seq<AgeBand>, adults: int, ages: seq<int>)
    requires SmallBands(bands)
    ensures var p := Classify(bands, adults, ages);
            p.adults + |p.children| == adults + |ages| && p.adults >= adults && SmallBands(p.children)
  {
    if ages != [] {
      ClassifyCounts(bands, adults, ages[..|ages| - 1]);
      BandIsSmall(bands, ages[|ages| - 1]);
    }
  }

  lemma {:induction false} BandIsSmall(bands: seq<AgeBand>, age: int)
    requires SmallBands(bands)
    ensures BandFor(bands, age).Some? ==> Small(BandFor(bands, age).value.pricePerNightMinor)
  {
    if bands != [] {
      BandIsSmall(bands[1..], age);
    }
  }

  /** For every party and stay the validators admit, and rates within the bound, the
      machine's nights and derived price are the exact ones: nothing wraps, nothing
      saturates and nothing panics before the adjusters. */
  lemma NothingOverflows(s: Snapshot, r: Request)
    requires Validated(r) && Admit(s, r).Ok?
    requires forall d | d in s.days :: SmallDay(s.days[d])
    requires SmallBands(s.ageBands) && SmallDerivation(s.plan.derive)
    ensures var (days, party) := Admit(s, r).value;
            && (forall i | 0 <= i < |days| :: FieldsFit(days[i])) && BandsFit(party.children)
            && var sum := NightsMachine(days, party, r.pets, r.vehicles);
            && var exact := SumNights(days, party, r.pets, r.vehicles);
            && sum == Int64.Exact(exact) && DerivedMachine(s.plan, sum) == Int64.Exact(DeriveStage(s.plan).next(exact))
  {
    var (days, party) := Admit(s, r).value;
    SortedBandsStaySmall(s.ageBands);
    ClassifyCounts(Sorting.StableSort(s.ageBands, BandLeq), r.adults, r.children);
    NightsAreExact(days, party, r.pets, r.vehicles);
    DerivedIsExact(s.plan, NightsMachine(days, party, r.pets, r.vehicles), SumNights(days, party, r.pets, r.vehicles));
  }

  lemma SortedBandsStaySmall(bands: seq<AgeBand>)
    requires SmallBands(bands)
    ensures SmallBands(Sorting.StableSort(bands, BandLeq))
  {
    var sorted := Sorting.StableSort(bands, BandLeq);
    Sorting.StableSortSorts(bands, BandLeq);
    forall i | 0 <= i < |sorted| ensures Small(sorted[i].pricePerNightMinor) {
      assert sorted[i] in multiset(sorted);
      assert sorted[i] in bands;
    }
  }

  // ---- VAT, in 64 bits ------------------------------------------------------------------------------

  /** The product by 10000 is not checked. */
  function NetFromGrossMachine(gross: int, rateBP: BasisPoints): int {
    if rateBP == 0 then gross else Money.DivRoundMachine(Int64.Wrap(gross * 10000), 10000 + rateBP)
  }

  /** Nine trillion kronor. */
  const GROSS_BOUND: int := 900_000_000_000_000

  lemma NetIsExact(gross: int, rateBP: BasisPoints)
    requires -GROSS_BOUND <= gross <= GROSS_BOUND
    ensures NetFromGrossMachine(gross, rateBP) == NetFromGross(gross, rateBP)
  {
    Money.DivRoundMachineExact(gross * 10000, 10000 + rateBP);
  }

  /** A line of ten trillion kronor is backed out as a negative net. */
  lemma HugeGrossWraps()
    ensures NetFromGrossMachine(1_000_000_000_000_000, 2500) < 0
    ensures NetFromGross(1_000_000_000_000_000, 2500) == 800_000_000_000_000
  {
    var product := Int64.Wrap(10_000_000_000_000_000_000);
    assert product == -8_446_744_073_709_551_616;
    assert Money.DivRoundMachine(product, 12500) == -675_739_525_896_764;
    assert Money.DivRound(10_000_000_000_000_000_000, 12500) == 800_000_000_000_000;
  }

  /** The validators alone are not enough: with a rate of 2^62 four extra adults cost
      nothing, and no addition notices. */
  lemma HugeRatesWrapUnseen()
    ensures var d := RateDay(100, 2, 0, 0x4000_0000_0000_0000, 0, 0, 0, 1, 0, 127, false, false, false);
            && ValidateParty(6, 0, 0, 0) == None && FieldsFit(d)
            && NightMachine(d, Party(6, []), 0, 0) == Int64.Exact(100)
            && NightPrice(d, Party(6, []), 0, 0) == 100 + 4 * 0x4000_0000_0000_0000
  {
    assert AddBands(Int64.Exact(100), []) == Int64.Exact(100);
  }
}
