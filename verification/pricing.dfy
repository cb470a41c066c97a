/** The pricing engine as functions: what each stage of the pipeline adds. */
module Pricing {
  import opened Dates
  import opened Options
  import Money
  import Sorting

  type BasisPoints = x: int | 0 <= x <= 10000

  datatype RateDay = RateDay(
    baseMinor: int, includedAdults: int, includedChildren: int,
    adultExtraMinor: int, childExtraMinor: int, petMinor: int, vehicleMinor: int,
    minStay: int, maxStay: int, arrivalMask: int,
    closed: bool, closedToArrival: bool, closedToDeparture: bool)

  datatype AgeBand = AgeBand(code: string, ageFrom: int, ageTo: int, pricePerNightMinor: int)

  datatype Window = Window(from: int, to: int)

  datatype Change = Factor(bp: int) | PerNight(minor: int)

  /** A dynamic-pricing rule; a window that is absent does not constrain. */
  datatype Adjuster = Adjuster(
    name: string, priority: int, occupancy: Option<Window>, leadDays: Option<Window>, change: Change)

  datatype Discount = Percent(bp: int) | Fixed(minor: int)

  datatype Derivation = NotDerived | DerivedPercent(bp: int) | DerivedAmount(minor: int)

  datatype Plan = Plan(
    currency: string, vatCode: string, derive: Derivation,
    minPriceMinor: Option<int>, maxPriceMinor: Option<int>)

  datatype LengthDiscount = LengthDiscount(minNights: int, percentBP: int)

  datatype VATCode = VATCode(rateBP: BasisPoints, treatment: string)

  /** Everything loaded to price one category under one campaign code. */
  datatype Snapshot = Snapshot(
    category: nat, campaignCode: string, plan: Plan, days: map<int, RateDay>, ageBands: seq<AgeBand>,
    adjusters: seq<Adjuster>, los: seq<LengthDiscount>, campaign: Option<Discount>, vatCodes: map<string, VATCode>,
    maxOccupancy: int, petsAllowed: bool)

  /** Children are given by their age on the day of arrival. */
  datatype Request = Request(
    stay: Stay, adults: int, children: seq<int>, pets: int, vehicles: int,
    leadDays: int, occupancyBP: int)
  {
    function Nights(): int {
      stay.departure - stay.arrival
    }
  }

  datatype Kind =
    | Accommodation | DerivedPlan | AdjusterLine | LOSDiscount | CampaignLine | Rounding

  datatype Line = Line(
    number: int, kind: Kind, stayDate: Option<int>, qty: int, unitGrossMinor: int,
    grossMinor: int, netMinor: int, vatMinor: int,
    vatCode: string, vatRateBP: int, vatTreatment: string)

  datatype Step = Step(rule: Kind, effect: int)

  datatype Totals = Totals(
    grossMinor: int, netMinor: int, vatMinor: int, currency: string, byRate: map<int, int>)

  datatype Quote = Quote(nights: int, lines: seq<Line>, explain: seq<Step>, totals: Totals)

  datatype Reason =
    | Closed | OverCapacity | PetsNotAllowed | MinStay | MaxStay | ArrivalDay
    | ClosedToArrival | ClosedToDeparture

  datatype Error = NotSellable(reason: Reason) | NoRate(day: int) | NoVATCode(code: string)

  datatype Result<+T> = Ok(value: T) | Err(error: Error) {
    predicate IsFailure() {
      Err?
    }
    function PropagateFailure<U>(): Result<U>
      requires Err?
    {
      Err(error)
    }
    function Extract(): T
      requires Ok?
    {
      value
    }
  }

  // ---- the nights ----------------------------------------------------------------

  function StayDays(days: map<int, RateDay>, arrival: int, nights: nat): (r: Result<seq<RateDay>>)
    ensures r.Ok? <==> forall d | arrival <= d < arrival + nights :: d in days
    ensures r.Ok? ==> |r.value| == nights
    ensures r.Ok? ==> forall i | 0 <= i < nights :: r.value[i] == days[arrival + i]
    ensures r.Err? ==> r.error.NoRate? && arrival <= r.error.day < arrival + nights
    ensures r.Err? ==> r.error.day !in days && forall d | arrival <= d < r.error.day :: d in days
  {
    if nights == 0 then Ok([])
    else
      var before :- StayDays(days, arrival, nights - 1);
      var day := arrival + nights - 1;
      if day in days then Ok(before + [days[day]]) else Err(NoRate(day))
  }

  function ValidateStay(days: seq<RateDay>, arrival: int): Option<Reason>
    requires days != []
  {
    var first := days[0];
    var nights := |days|;
    if exists i | 0 <= i < |days| :: days[i].closed then Some(Closed)
    else if nights < first.minStay then Some(MinStay)
    else if first.maxStay > 0 && nights > first.maxStay then Some(MaxStay)
    else if first.closedToArrival then Some(ClosedToArrival)
    else if first.arrivalMask != 0 && first.arrivalMask != 127 && !MaskHas(first.arrivalMask, arrival)
    then Some(ArrivalDay)
    else if days[nights - 1].closedToDeparture then Some(ClosedToDeparture)
    else None
  }

  // ---- the party -----------------------------------------------------------------

  predicate BandLeq(a: AgeBand, b: AgeBand) {
    a.ageFrom <= b.ageFrom
  }

  /** The first band that holds the age, in order. */
  function BandFor(bands: seq<AgeBand>, age: int): Option<AgeBand> {
    if bands == [] then None
    else if bands[0].ageFrom <= age <= bands[0].ageTo then Some(bands[0])
    else BandFor(bands[1..], age)
  }

  datatype Party = Party(adults: int, children: seq<AgeBand>)

  /** A child no band holds counts as an adult. */
  function Classify(bands: seq<AgeBand>, adults: int, ages: seq<int>): Party {
    if ages == [] then Party(adults, [])
    else
      var before := Classify(bands, adults, ages[..|ages| - 1]);
      match BandFor(bands, ages[|ages| - 1])
      case Some(band) => Party(before.adults, before.children + [band])
      case None => Party(before.adults + 1, before.children)
  }

  function PartyOf(s: Snapshot, r: Request): Party {
    Classify(Sorting.StableSort(s.ageBands, BandLeq), r.adults, r.children)
  }

  function SumBands(bands: seq<AgeBand>): int {
    if bands == [] then 0 else SumBands(bands[..|bands| - 1]) + bands[|bands| - 1].pricePerNightMinor
  }

  function NightPrice(d: RateDay, party: Party, pets: int, vehicles: int): int {
    d.baseMinor
    + (if party.adults > d.includedAdults then d.adultExtraMinor * (party.adults - d.includedAdults) else 0)
    + SumBands(party.children)
    + (if pets > 0 then d.petMinor * pets else 0)
    + (if vehicles > 0 then d.vehicleMinor * vehicles else 0)
  }

  function SumNights(days: seq<RateDay>, party: Party, pets: int, vehicles: int): int {
    if days == [] then 0
    else SumNights(days[..|days| - 1], party, pets, vehicles)
         + NightPrice(days[|days| - 1], party, pets, vehicles)
  }

  // ---- lines and the trace ----------------------------------------------------------

  /** The quote under construction. */
  datatype Draft = Draft(lines: seq<Line>, explain: seq<Step>)

  function GrossOf(lines: seq<Line>): int {
    if lines == [] then 0 else GrossOf(lines[..|lines| - 1]) + lines[|lines| - 1].grossMinor
  }

  function EffectsOf(steps: seq<Step>): int {
    if steps == [] then 0 else EffectsOf(steps[..|steps| - 1]) + steps[|steps| - 1].effect
  }

  function NewLine(number: int, kind: Kind, day: Option<int>, unit: int, gross: int, vatCode: string): Line {
    Line(number, kind, day, 1, unit, gross, 0, 0, vatCode, 0, "")
  }

  /** Money only ever moves by a line and the step that explains it. */
  function Emit(q: Draft, kind: Kind, effect: int, vatCode: string): Draft {
    Draft(q.lines + [NewLine(|q.lines| + 1, kind, None, 0, effect, vatCode)],
          q.explain + [Step(kind, effect)])
  }

  function EmitUnlessZero(q: Draft, kind: Kind, effect: int, vatCode: string): Draft {
    if effect == 0 then q else Emit(q, kind, effect, vatCode)
  }

  function NightLines(days: seq<RateDay>, arrival: int, party: Party, pets: int, vehicles: int,
                      vatCode: string): seq<Line>
  {
    if days == [] then []
    else
      var i := |days| - 1;
      var night := NightPrice(days[i], party, pets, vehicles);
      NightLines(days[..i], arrival, party, pets, vehicles, vatCode)
      + [NewLine(i + 1, Accommodation, Some(arrival + i), night, night, vatCode)]
  }

  // ---- the stages -------------------------------------------------------------------

  function DeriveDelta(plan: Plan, subtotal: int): int {
    match plan.derive
    case NotDerived => 0
    case DerivedPercent(bp) => Money.MulBP(subtotal, bp)
    case DerivedAmount(minor) => minor
  }

  predicate AdjusterLeq(a: Adjuster, b: Adjuster) {
    a.priority < b.priority || (a.priority == b.priority && Sorting.StringLeq(a.name, b.name))
  }

  predicate Outside(w: Option<Window>, x: int) {
    w.Some? && (x < w.value.from || x > w.value.to)
  }

  predicate Applies(a: Adjuster, r: Request) {
    && !Outside(a.occupancy, r.occupancyBP)
    && !Outside(a.leadDays, r.leadDays)
    && (a.occupancy.Some? || a.leadDays.Some?)
  }

  function Clamp(amount: int, plan: Plan, nights: int): int {
    if plan.minPriceMinor.Some? && amount < plan.minPriceMinor.value * nights
    then plan.minPriceMinor.value * nights
    else if plan.maxPriceMinor.Some? && amount > plan.maxPriceMinor.value * nights
    then plan.maxPriceMinor.value * nights
    else amount
  }

  function AdjusterDelta(c: Change, subtotal: int, nights: int): int {
    match c
    case Factor(bp) => Money.MulBP(subtotal, bp) - subtotal
    case PerNight(minor) => minor * nights
  }

  /** The longest threshold the stay reaches; 0 when it reaches none. */
  function BestThreshold(los: seq<LengthDiscount>, nights: int): int {
    if los == [] then 0
    else
      var n := |los| - 1;
      var best := BestThreshold(los[..n], nights);
      if nights >= los[n].minNights && los[n].minNights > best then los[n].minNights else best
  }

  /** The first rule with that threshold. */
  function PercentAt(los: seq<LengthDiscount>, threshold: int): int {
    if los == [] then 0
    else if los[0].minNights == threshold then los[0].percentBP
    else PercentAt(los[1..], threshold)
  }

  function LOSDelta(los: seq<LengthDiscount>, nights: int, subtotal: int): int {
    var best := BestThreshold(los, nights);
    if best == 0 then 0 else -Money.MulBP(subtotal, PercentAt(los, best))
  }

  function CampaignDelta(c: Option<Discount>, subtotal: int): int {
    match c
    case None => 0
    case Some(Percent(bp)) => -Money.MulBP(subtotal, bp)
    case Some(Fixed(minor)) => -minor
  }

  /** A stage turns one running subtotal into the next, and the difference is
      the line it emits. */
  datatype Stage = Stage(kind: Kind, next: int -> int)

  function DeriveStage(plan: Plan): Stage {
    Stage(DerivedPlan, x => x + DeriveDelta(plan, x))
  }

  function AdjusterStage(a: Adjuster, plan: Plan, r: Request): Stage {
    Stage(AdjusterLine, x =>
      if Applies(a, r) then Clamp(x + AdjusterDelta(a.change, x, r.Nights()), plan, r.Nights()) else x)
  }

  function AdjusterStages(adjusters: seq<Adjuster>, plan: Plan, r: Request): (stages: seq<Stage>)
    ensures |stages| == |adjusters|
  {
    seq(|adjusters|, i requires 0 <= i < |adjusters| => AdjusterStage(adjusters[i], plan, r))
  }

  function LOSStage(los: seq<LengthDiscount>, nights: int): Stage {
    Stage(LOSDiscount, x => x + LOSDelta(los, nights, x))
  }

  function CampaignStage(c: Option<Discount>): Stage {
    Stage(CampaignLine, x => x + CampaignDelta(c, x))
  }

  /** A discount larger than the stay is capped by a line of its own. */
  function FloorStage(): Stage {
    Stage(Rounding, x => if x < 0 then 0 else x)
  }

  function OrderedAdjusters(s: Snapshot): seq<Adjuster> {
    Sorting.StableSort(s.adjusters, AdjusterLeq)
  }

  /** The pipeline, in its fixed order. */
  function Stages(s: Snapshot, r: Request): seq<Stage> {
    [DeriveStage(s.plan)]
    + AdjusterStages(OrderedAdjusters(s), s.plan, r)
    + [LOSStage(s.los, r.Nights()), CampaignStage(s.campaign), FloorStage()]
  }

  datatype Running = Running(draft: Draft, subtotal: int)

  function RunStage(run: Running, stage: Stage, vatCode: string): Running {
    var after := stage.next(run.subtotal);
    Running(EmitUnlessZero(run.draft, stage.kind, after - run.subtotal, vatCode), after)
  }

  function RunStages(run: Running, stages: seq<Stage>, vatCode: string): Running {
    if stages == [] then run
    else RunStage(RunStages(run, stages[..|stages| - 1], vatCode), stages[|stages| - 1], vatCode)
  }

  function Opening(s: Snapshot, r: Request, days: seq<RateDay>, party: Party): Running {
    var base := SumNights(days, party, r.pets, r.vehicles);
    Running(Draft(NightLines(days, r.stay.arrival, party, r.pets, r.vehicles, s.plan.vatCode),
                  [Step(Accommodation, base)]),
            base)
  }

  /** Everything that moves money. */
  function Compose(s: Snapshot, r: Request, days: seq<RateDay>, party: Party): Draft {
    RunStages(Opening(s, r, days, party), Stages(s, r), s.plan.vatCode).draft
  }

  // ---- VAT and totals ------------------------------------------------------------------

  function NetFromGross(gross: int, rateBP: BasisPoints): int {
    if rateBP == 0 then gross else Money.DivRound(gross * 10000, 10000 + rateBP)
  }

  function WithVAT(l: Line, vat: VATCode): Line {
    var net := NetFromGross(l.grossMinor, vat.rateBP);
    l.(vatRateBP := vat.rateBP, vatTreatment := vat.treatment, netMinor := net,
       vatMinor := l.grossMinor - net)
  }

  function ApplyVAT(lines: seq<Line>, codes: map<string, VATCode>): (r: Result<seq<Line>>)
    ensures r.Ok? ==> |r.value| == |lines|
    ensures r.Ok? ==> forall i | 0 <= i < |lines| ::
              lines[i].vatCode in codes && r.value[i] == WithVAT(lines[i], codes[lines[i].vatCode])
    ensures r.Err? ==> r.error.NoVATCode? && r.error.code !in codes
  {
    if lines == [] then Ok([])
    else
      var n := |lines| - 1;
      var before :- ApplyVAT(lines[..n], codes);
      var code := lines[n].vatCode;
      if code in codes then Ok(before + [WithVAT(lines[n], codes[code])]) else Err(NoVATCode(code))
  }

  function NetOf(lines: seq<Line>): int {
    if lines == [] then 0 else NetOf(lines[..|lines| - 1]) + lines[|lines| - 1].netMinor
  }

  function VATOf(lines: seq<Line>): int {
    if lines == [] then 0 else VATOf(lines[..|lines| - 1]) + lines[|lines| - 1].vatMinor
  }

  function ByRate(lines: seq<Line>): map<int, int> {
    if lines == [] then map[]
    else
      var n := |lines| - 1;
      var before := ByRate(lines[..n]);
      var rate := lines[n].vatRateBP;
      before[rate := (if rate in before then before[rate] else 0) + lines[n].vatMinor]
  }

  function TotalsOf(lines: seq<Line>, currency: string): Totals {
    Totals(GrossOf(lines), NetOf(lines), VATOf(lines), currency, ByRate(lines))
  }

  // ---- the whole engine --------------------------------------------------------------

  /** Whether the stay is sellable, and the nights and party it is priced on. */
  function Admit(s: Snapshot, r: Request): (res: Result<(seq<RateDay>, Party)>)
    ensures res.Ok? ==> r.Nights() > 0 && |res.value.0| == r.Nights() && res.value.1 == PartyOf(s, r)
    ensures res.Ok? ==> forall i | 0 <= i < r.Nights() ::
              r.stay.arrival + i in s.days && res.value.0[i] == s.days[r.stay.arrival + i]
  {
    var nights := r.Nights();
    if nights <= 0 then Err(NotSellable(MinStay))
    else
      var days :- StayDays(s.days, r.stay.arrival, nights);
      var broken := ValidateStay(days, r.stay.arrival);
      if broken.Some? then Err(NotSellable(broken.value))
      else
        var party := PartyOf(s, r);
        if s.maxOccupancy > 0 && party.adults + |party.children| > s.maxOccupancy
        then Err(NotSellable(OverCapacity))
        else if r.pets > 0 && !s.petsAllowed then Err(NotSellable(PetsNotAllowed))
        else Ok((days, party))
  }

  function Finish(s: Snapshot, nights: int, draft: Draft): Result<Quote> {
    var lines :- ApplyVAT(draft.lines, s.vatCodes);
    Ok(Quote(nights, lines, draft.explain, TotalsOf(lines, s.plan.currency)))
  }

  function Price(s: Snapshot, r: Request): Result<Quote> {
    var (days, party) :- Admit(s, r);
    Finish(s, r.Nights(), Compose(s, r, days, party))
  }
}
