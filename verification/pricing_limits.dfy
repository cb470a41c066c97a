/** The whole engine on the machine's integers, and how far the exact one describes it. */
module PricingLimits {
  import opened Options
  import opened Pricing
  import opened PricingBalance
  import opened PricingMachine
  import PricingEngine
  import PricingAdjusters
  import Int64
  import Money
  import Sorting

  // ---- the stages, in 64 bits ---------------------------------------------------------------

  /** What a stage adds to the lines and leaves as subtotal; an addition that overflows
      panics. */
  datatype Move = Moves(delta: int, after: int) | Panics

  predicate ChangeFits(c: Change) {
    match c
    case Factor(bp) => Int64.Fits(bp)
    case PerNight(minor) => Int64.Fits(minor)
  }

  predicate PlanFits(p: Plan) {
    && DerivationFits(p.derive)
    && (p.minPriceMinor.Some? ==> Int64.Fits(p.minPriceMinor.value))
    && (p.maxPriceMinor.Some? ==> Int64.Fits(p.maxPriceMinor.value))
  }

  predicate MoveFits(m: Move) {
    m.Moves? ==> Int64.Fits(m.after)
  }

  function AddMoves(x: int, delta: int): (m: Move)
    requires Int64.Fits(x) && Int64.Fits(delta)
    ensures MoveFits(m)
  {
    match Int64.Add(x, delta)
    case Overflow => Panics
    case Exact(after) => Moves(delta, after)
  }

  function DeriveMachine(plan: Plan, x: int): (m: Move)
    requires Int64.Fits(x) && PlanFits(plan)
    ensures MoveFits(m)
  {
    AddMoves(x, DeriveDeltaMachine(plan, x))
  }

  function ClampMachine(amount: int, plan: Plan, nights: int): (c: int)
    ensures Int64.Fits(amount) ==> Int64.Fits(c)
  {
    if plan.minPriceMinor.Some? && amount < Int64.Wrap(plan.minPriceMinor.value * nights)
    then Int64.Wrap(plan.minPriceMinor.value * nights)
    else if plan.maxPriceMinor.Some? && amount > Int64.Wrap(plan.maxPriceMinor.value * nights)
    then Int64.Wrap(plan.maxPriceMinor.value * nights)
    else amount
  }

  function AdjusterDeltaMachine(c: Change, x: int, nights: int): (delta: int)
    requires Int64.Fits(x) && ChangeFits(c)
    ensures Int64.Fits(delta)
  {
    match c
    case Factor(bp) => Int64.Wrap(Money.MulBPMachine(x, bp) - x)
    case PerNight(minor) => Int64.Wrap(minor * nights)
  }

  function AdjusterMachine(a: Adjuster, plan: Plan, r: Request, x: int): (m: Move)
    requires Int64.Fits(x) && ChangeFits(a.change)
    ensures MoveFits(m)
  {
    if !Applies(a, r) then Moves(0, x)
    else
      match AddMoves(x, AdjusterDeltaMachine(a.change, x, r.Nights()))
      case Panics => Panics
      case Moves(delta, after) =>
        var clamped := ClampMachine(after, plan, r.Nights());
        if clamped != after then Moves(Int64.Wrap(clamped - x), clamped) else Moves(delta, after)
  }

  function LOSDeltaMachine(percentBP: int, x: int): int
    requires Int64.Fits(x) && Int64.Fits(percentBP)
  {
    Int64.Wrap(-Money.MulBPMachine(x, percentBP))
  }

  predicate DiscountFits(c: Option<Discount>) {
    match c
    case None => true
    case Some(Percent(bp)) => Int64.Fits(bp)
    case Some(Fixed(minor)) => Int64.Fits(minor)
  }

  function CampaignDeltaMachine(c: Option<Discount>, x: int): int
    requires Int64.Fits(x) && DiscountFits(c)
  {
    match c
    case None => 0
    case Some(Percent(bp)) => Int64.Wrap(-Money.MulBPMachine(x, bp))
    case Some(Fixed(minor)) => Int64.Wrap(-minor)
  }

  // ---- the engine, in 64 bits ---------------------------------------------------------------

  datatype Going = Going(draft: Draft, subtotal: int) | Panicked {
    predicate Fits() {
      Going? ==> Int64.Fits(subtotal)
    }
  }

  function Advance(draft: Draft, kind: Kind, m: Move, code: string): (out: Going)
    requires MoveFits(m)
    ensures out.Fits()
  {
    match m
    case Panics => Panicked
    case Moves(delta, after) => Going(EmitUnlessZero(draft, kind, delta, code), after)
  }

  predicate ChangesFit(adjusters: seq<Adjuster>) {
    forall i | 0 <= i < |adjusters| :: ChangeFits(adjusters[i].change)
  }

  function AdjustMachine(run: Going, adjusters: seq<Adjuster>, plan: Plan, r: Request, code: string): (out: Going)
    requires run.Fits() && ChangesFit(adjusters)
    ensures out.Fits()
  {
    if adjusters == [] then run
    else
      var n := |adjusters| - 1;
      match AdjustMachine(run, adjusters[..n], plan, r, code)
      case Panicked => Panicked
      case Going(draft, x) => Advance(draft, AdjusterLine, AdjusterMachine(adjusters[n], plan, r, x), code)
  }

  function GrossMachine(lines: seq<Line>): (s: int)
    ensures Int64.Fits(s)
  {
    if lines == [] then 0 else Int64.Wrap(GrossMachine(lines[..|lines| - 1]) + lines[|lines| - 1].grossMinor)
  }

  function NetMachine(lines: seq<Line>): (s: int)
    ensures Int64.Fits(s)
  {
    if lines == [] then 0 else Int64.Wrap(NetMachine(lines[..|lines| - 1]) + lines[|lines| - 1].netMinor)
  }

  function VATMachine(lines: seq<Line>): (s: int)
    ensures Int64.Fits(s)
  {
    if lines == [] then 0 else Int64.Wrap(VATMachine(lines[..|lines| - 1]) + lines[|lines| - 1].vatMinor)
  }

  function ByRateMachine(lines: seq<Line>): map<int, int> {
    if lines == [] then map[]
    else
      var n := |lines| - 1;
      var before := ByRateMachine(lines[..n]);
      var rate := lines[n].vatRateBP;
      before[rate := Int64.Wrap((if rate in before then before[rate] else 0) + lines[n].vatMinor)]
  }

  function StayMachine(s: Snapshot, r: Request, draft: Draft, x: int): Draft
    requires Int64.Fits(x) && Int64.Fits(PercentAt(s.los, BestThreshold(s.los, r.Nights())))
  {
    var best := BestThreshold(s.los, r.Nights());
    var delta := if best == 0 then 0 else LOSDeltaMachine(PercentAt(s.los, best), x);
    EmitUnlessZero(draft, LOSDiscount, delta, s.plan.vatCode)
  }

  function CampaignMachine(s: Snapshot, draft: Draft): Draft
    requires DiscountFits(s.campaign)
  {
    EmitUnlessZero(draft, CampaignLine, CampaignDeltaMachine(s.campaign, GrossMachine(draft.lines)), s.plan.vatCode)
  }

  function CapMachine(s: Snapshot, draft: Draft): Draft {
    var total := GrossMachine(draft.lines);
    if total < 0 then EmitUnlessZero(draft, Rounding, Int64.Wrap(-total), s.plan.vatCode) else draft
  }

  /** Length of stay on the running subtotal; campaign and cap on what the lines sum to. */
  function DiscountMachine(s: Snapshot, r: Request, draft: Draft, x: int): Draft
    requires Int64.Fits(x) && DiscountFits(s.campaign) && Int64.Fits(PercentAt(s.los, BestThreshold(s.los, r.Nights())))
  {
    CapMachine(s, CampaignMachine(s, StayMachine(s, r, draft, x)))
  }

  function WithVATMachine(l: Line, vat: VATCode): Line {
    var net := NetFromGrossMachine(l.grossMinor, vat.rateBP);
    l.(vatRateBP := vat.rateBP, vatTreatment := vat.treatment, netMinor := net,
       vatMinor := Int64.Wrap(l.grossMinor - net))
  }

  function ApplyVATMachine(lines: seq<Line>, codes: map<string, VATCode>): (r: Result<seq<Line>>)
    ensures r.Ok? ==> |r.value| == |lines|
  {
    if lines == [] then Ok([])
    else
      var n := |lines| - 1;
      var before :- ApplyVATMachine(lines[..n], codes);
      var code := lines[n].vatCode;
      if code in codes then Ok(before + [WithVATMachine(lines[n], codes[code])]) else Err(NoVATCode(code))
  }

  function FinishMachine(s: Snapshot, nights: int, draft: Draft): Result<Quote> {
    var lines :- ApplyVATMachine(draft.lines, s.vatCodes);
    Ok(Quote(nights, lines, draft.explain,
             Totals(GrossMachine(lines), NetMachine(lines), VATMachine(lines), s.plan.currency, ByRateMachine(lines))))
  }

  function NightLinesMachine(days: seq<RateDay>, arrival: int, party: Party, pets: int, vehicles: int,
                             vatCode: string): seq<Line>
    requires (forall i | 0 <= i < |days| :: FieldsFit(days[i])) && BandsFit(party.children)
  {
    if days == [] then []
    else
      var i := |days| - 1;
      var night := NightMachine(days[i], party, pets, vehicles);
      var price := if night.Exact? then night.value else 0;
      NightLinesMachine(days[..i], arrival, party, pets, vehicles, vatCode)
      + [NewLine(i + 1, Accommodation, Some(arrival + i), price, price, vatCode)]
  }

  /** Every figure the engine reads is a 64-bit one. */
  predicate Representable(s: Snapshot, r: Request) {
    && PlanFits(s.plan) && DiscountFits(s.campaign)
    && ChangesFit(OrderedAdjusters(s))
    && Int64.Fits(PercentAt(s.los, BestThreshold(s.los, r.Nights())))
    && (Admit(s, r).Ok? ==>
          && (forall i | 0 <= i < |Admit(s, r).value.0| :: FieldsFit(Admit(s, r).value.0[i]))
          && BandsFit(Admit(s, r).value.1.children))
  }

  function ComposeMachine(s: Snapshot, r: Request, days: seq<RateDay>, party: Party): Going
    requires Representable(s, r) && Admit(s, r) == Ok((days, party))
  {
    match NightsMachine(days, party, r.pets, r.vehicles)
    case Overflow => Panicked
    case Exact(base) =>
      AfterNights(s, r, Draft(NightLinesMachine(days, r.stay.arrival, party, r.pets, r.vehicles, s.plan.vatCode),
                              [Step(Accommodation, base)]), base)
  }

  /** Derivation, adjusters and discounts. */
  function AfterNights(s: Snapshot, r: Request, opening: Draft, base: int): Going
    requires Representable(s, r) && Int64.Fits(base)
  {
    match Advance(opening, DerivedPlan, DeriveMachine(s.plan, base), s.plan.vatCode)
    case Panicked => Panicked
    case Going(draft, x) => AfterDerivation(s, r, draft, x)
  }

  function AfterDerivation(s: Snapshot, r: Request, draft: Draft, x: int): Going
    requires Representable(s, r) && Int64.Fits(x)
  {
    match AdjustMachine(Going(draft, x), OrderedAdjusters(s), s.plan, r, s.plan.vatCode)
    case Panicked => Panicked
    case Going(adjusted, y) => Going(DiscountMachine(s, r, adjusted, y), y)
  }

  datatype Answer = Panic | Returned(result: Result<Quote>)

  function PriceMachine(s: Snapshot, r: Request): Answer
    requires Representable(s, r)
  {
    match Admit(s, r)
    case Err(error) => Returned(Err(error))
    case Ok((days, party)) =>
      match ComposeMachine(s, r, days, party)
      case Panicked => Panic
      case Going(draft, _) => Returned(FinishMachine(s, r.Nights(), draft))
  }

  // ---- the bounds ------------------------------------------------------------------------------

  /** Four and a half trillion kronor, and percentages up to two hundred. */
  const STEP_BOUND: int := 450_000_000_000_000
  const DERIVED_BOUND: int := 410_000_000_000_000
  const BP_BOUND: int := 20_000
  const MAX_ADJUSTERS: nat := 1000

  predicate Within(x: int) {
    -STEP_BOUND <= x <= STEP_BOUND
  }

  predicate SmallBP(bp: int) {
    -BP_BOUND <= bp <= BP_BOUND
  }

  predicate SmallChange(c: Change) {
    match c
    case Factor(bp) => SmallBP(bp)
    case PerNight(minor) => Small(minor)
  }

  predicate SmallChanges(adjusters: seq<Adjuster>) {
    forall i | 0 <= i < |adjusters| :: SmallChange(adjusters[i].change)
  }

  predicate SmallDiscount(c: Option<Discount>) {
    match c
    case None => true
    case Some(Percent(bp)) => SmallBP(bp)
    case Some(Fixed(minor)) => Within(minor)
  }

  predicate SmallPlan(p: Plan) {
    && SmallDerivation(p.derive)
    && (p.minPriceMinor.Some? ==> Small(p.minPriceMinor.value))
    && (p.maxPriceMinor.Some? ==> Small(p.maxPriceMinor.value))
  }

  ghost predicate SmallSnapshot(s: Snapshot, r: Request) {
    && (forall d | d in s.days :: SmallDay(s.days[d])) && SmallBands(s.ageBands)
    && SmallPlan(s.plan) && SmallChanges(OrderedAdjusters(s)) && |OrderedAdjusters(s)| <= MAX_ADJUSTERS
    && SmallDiscount(s.campaign) && SmallBP(PercentAt(s.los, BestThreshold(s.los, r.Nights())))
  }

  lemma PercentIsExact(x: int, bp: int)
    requires Within(x) && SmallBP(bp)
    ensures Int64.Fits(x) && Int64.Fits(bp)
    ensures Money.MulBPMachine(x, bp) == Money.MulBP(x, bp)
    ensures -(2 * STEP_BOUND) <= Money.MulBP(x, bp) <= 2 * STEP_BOUND
  {
    TimesAtMost(x, STEP_BOUND, bp, BP_BOUND);
    Money.MulBPMachineExact(x, bp);
    Money.DivRoundBounds(x * bp, 10000, 2 * STEP_BOUND);
    Money.DivRoundBounds(x * bp, 10000, -(2 * STEP_BOUND));
  }

  lemma NightlyIsExact(minor: int, nights: int)
    requires Small(minor) && 0 <= nights <= MAX_STAY_NIGHTS
    ensures Within(minor * nights) && Int64.Wrap(minor * nights) == minor * nights
  {
    TimesSmall(minor, nights, MAX_STAY_NIGHTS);
  }

  lemma AddIsExact(x: int, delta: int)
    requires Within(x) && -(4 * STEP_BOUND) <= delta <= 4 * STEP_BOUND
    ensures AddMoves(x, delta) == Moves(delta, x + delta)
  {
    Int64.AddIsExactOrRefused(x, delta);
  }

  lemma ClampIsExact(amount: int, plan: Plan, nights: int)
    requires SmallPlan(plan) && 0 <= nights <= MAX_STAY_NIGHTS
    ensures ClampMachine(amount, plan, nights) == Clamp(amount, plan, nights)
  {
    if plan.minPriceMinor.Some? {
      NightlyIsExact(plan.minPriceMinor.value, nights);
    }
    if plan.maxPriceMinor.Some? {
      NightlyIsExact(plan.maxPriceMinor.value, nights);
    }
  }

  lemma AdjusterDeltaIsExact(c: Change, x: int, nights: int)
    requires Within(x) && SmallChange(c) && 0 <= nights <= MAX_STAY_NIGHTS
    ensures ChangeFits(c) && AdjusterDeltaMachine(c, x, nights) == AdjusterDelta(c, x, nights)
    ensures -(4 * STEP_BOUND) <= AdjusterDelta(c, x, nights) <= 4 * STEP_BOUND
  {
    match c
    case Factor(bp) => PercentIsExact(x, bp);
    case PerNight(minor) => NightlyIsExact(minor, nights);
  }

  lemma AdjusterIsExact(a: Adjuster, plan: Plan, r: Request, x: int)
    requires Within(x) && SmallChange(a.change) && SmallPlan(plan) && 0 <= r.Nights() <= MAX_STAY_NIGHTS
    requires Within(AdjusterStage(a, plan, r).next(x))
    ensures ChangeFits(a.change)
    ensures var next := AdjusterStage(a, plan, r).next(x); AdjusterMachine(a, plan, r, x) == Moves(next - x, next)
  {
    var delta := AdjusterDelta(a.change, x, r.Nights());
    AdjusterDeltaIsExact(a.change, x, r.Nights());
    AddIsExact(x, delta);
    ClampIsExact(x + delta, plan, r.Nights());
  }

  lemma DeriveMoveIsExact(plan: Plan, base: int)
    requires -(36_865 * RATE_BOUND) <= base <= 36_865 * RATE_BOUND && SmallPlan(plan)
    ensures PlanFits(plan) && Int64.Fits(base)
    ensures var next := DeriveStage(plan).next(base);
            && DeriveMachine(plan, base) == Moves(next - base, next) && Within(base)
            && -DERIVED_BOUND <= next <= DERIVED_BOUND
  {
    match plan.derive
    case NotDerived =>
    case DerivedPercent(bp) =>
      PercentOfSmall(base, bp);
      TimesAtMost(base, 36_865 * RATE_BOUND, bp, DERIVE_BOUND);
      Money.MulBPMachineExact(base, bp);
      Money.DivRoundBounds(base * bp, 10000, 370_000_000_000_000);
      Money.DivRoundBounds(base * bp, 10000, -370_000_000_000_000);
    case DerivedAmount(minor) =>
  }

  // ---- what the exact engine keeps ---------------------------------------------------------------

  /** The draft balances, its lines are few and moderate, and its subtotal is within bounds. */
  ghost predicate Moderate(run: Running, most: nat, code: string) {
    && Balanced(run.draft, code) && GrossOf(run.draft.lines) == run.subtotal
    && |run.draft.lines| <= most && ModerateLines(run.draft.lines) && Within(run.subtotal)
  }

  predicate ModerateLines(lines: seq<Line>) {
    forall i | 0 <= i < |lines| :: -(2 * STEP_BOUND) <= lines[i].grossMinor <= 2 * STEP_BOUND
  }

  lemma StageEmits(run: Running, stage: Stage, delta: int, code: string)
    requires delta == stage.next(run.subtotal) - run.subtotal
    ensures RunStage(run, stage, code).draft == EmitUnlessZero(run.draft, stage.kind, delta, code)
  {
  }

  lemma StageKeepsModerate(run: Running, stage: Stage, most: nat, code: string)
    requires Moderate(run, most, code) && Within(stage.next(run.subtotal))
    ensures Moderate(RunStage(run, stage, code), most + 1, code)
    ensures RunStage(run, stage, code).subtotal == stage.next(run.subtotal)
  {
    StageConserves(run, stage, code);
  }

  /** One adjuster more, on both sides. */
  lemma AdjusterStepIsExact(before: Running, a: Adjuster, plan: Plan, r: Request, most: nat, code: string)
    requires Moderate(before, most, code) && SmallChange(a.change) && SmallPlan(plan)
    requires 0 <= r.Nights() <= MAX_STAY_NIGHTS && Within(AdjusterStage(a, plan, r).next(before.subtotal))
    ensures var out := RunStage(before, AdjusterStage(a, plan, r), code);
            && Moderate(out, most + 1, code) && ChangeFits(a.change)
            && Advance(before.draft, AdjusterLine, AdjusterMachine(a, plan, r, before.subtotal), code)
            == Going(out.draft, out.subtotal)
  {
    AdjusterIsExact(a, plan, r, before.subtotal);
    StageKeepsModerate(before, AdjusterStage(a, plan, r), most, code);
  }

  lemma {:induction false} AdjustersAreExact(run: Running, adjusters: seq<Adjuster>, plan: Plan, r: Request,
                                             most: nat, code: string)
    requires Moderate(run, most, code) && SmallChanges(adjusters) && SmallPlan(plan)
    requires 0 <= r.Nights() <= MAX_STAY_NIGHTS && AdjustersStay(run.subtotal, adjusters, plan, r)
    ensures var out := RunStages(run, AdjusterStages(adjusters, plan, r), code);
            && Moderate(out, most + |adjusters|, code)
            && out.subtotal == Through(run.subtotal, AdjusterStages(adjusters, plan, r))
            && ChangesFit(adjusters)
            && AdjustMachine(Going(run.draft, run.subtotal), adjusters, plan, r, code)
            == Going(out.draft, out.subtotal)
  {
    if adjusters != [] {
      var n := |adjusters| - 1;
      ShorterStays(run.subtotal, adjusters, plan, r);
      AdjustersAreExact(run, adjusters[..n], plan, r, most, code);
      LastAdjuster(run, adjusters, plan, r, code);
      AdjusterStepIsExact(RunStages(run, AdjusterStages(adjusters[..n], plan, r), code), adjusters[n], plan, r,
                          most + n, code);
    }
  }

  lemma LastAdjuster(run: Running, adjusters: seq<Adjuster>, plan: Plan, r: Request, code: string)
    requires adjusters != []
    ensures var stages, n := AdjusterStages(adjusters, plan, r), |adjusters| - 1;
            && stages[..n] == AdjusterStages(adjusters[..n], plan, r)
            && stages[n] == AdjusterStage(adjusters[n], plan, r)
            && RunStages(run, stages, code)
            == RunStage(RunStages(run, AdjusterStages(adjusters[..n], plan, r), code), stages[n], code)
  {
    var stages, n := AdjusterStages(adjusters, plan, r), |adjusters| - 1;
    assert stages[..n] == AdjusterStages(adjusters[..n], plan, r);
  }

  /** No adjuster takes the exact subtotal out of bounds. */
  ghost predicate AdjustersStay(x: int, adjusters: seq<Adjuster>, plan: Plan, r: Request) {
    forall k | 0 <= k <= |adjusters| :: Within(Through(x, AdjusterStages(adjusters[..k], plan, r)))
  }

  lemma ShorterStays(x: int, adjusters: seq<Adjuster>, plan: Plan, r: Request)
    requires adjusters != [] && AdjustersStay(x, adjusters, plan, r)
    ensures AdjustersStay(x, adjusters[..|adjusters| - 1], plan, r)
    ensures Within(Through(x, AdjusterStages(adjusters, plan, r)))
  {
    var shorter := adjusters[..|adjusters| - 1];
    assert adjusters[..|adjusters|] == adjusters;
    forall k | 0 <= k <= |shorter| ensures Within(Through(x, AdjusterStages(shorter[..k], plan, r))) {
      assert shorter[..k] == adjusters[..k];
    }
  }

  // ---- the nights and the discounts ----------------------------------------------------------------

  const MAX_LINES: nat := 4000

  /** One line more, in a register that holds the sum so far. */
  lemma RegisterStep(register: int, sum: int, x: int, n: nat)
    requires register == sum && n < MAX_LINES && -(2 * STEP_BOUND) <= x <= 2 * STEP_BOUND
    requires -(n * (2 * STEP_BOUND)) <= sum <= n * (2 * STEP_BOUND)
    ensures Int64.Wrap(register + x) == sum + x
    ensures -((n + 1) * (2 * STEP_BOUND)) <= sum + x <= (n + 1) * (2 * STEP_BOUND)
  {
    assert Int64.Fits(register + x);
  }

  lemma {:induction false} GrossIsExact(lines: seq<Line>)
    requires ModerateLines(lines) && |lines| <= MAX_LINES
    ensures GrossMachine(lines) == GrossOf(lines)
    ensures -(|lines| * (2 * STEP_BOUND)) <= GrossOf(lines) <= |lines| * (2 * STEP_BOUND)
  {
    if lines != [] {
      var n := |lines| - 1;
      GrossIsExact(lines[..n]);
      RegisterStep(GrossMachine(lines[..n]), GrossOf(lines[..n]), lines[n].grossMinor, n);
    }
  }

  lemma {:induction false} NightLinesAreExact(days: seq<RateDay>, arrival: int, party: Party, pets: int, vehicles: int,
                                              code: string)
    requires (forall i | 0 <= i < |days| :: SmallDay(days[i])) && SmallBands(party.children)
    requires 0 <= party.adults && party.adults + |party.children| <= MAX_PARTY
    requires pets <= MAX_PETS && vehicles <= MAX_VEHICLES
    ensures (forall i | 0 <= i < |days| :: FieldsFit(days[i])) && BandsFit(party.children)
    ensures NightLinesMachine(days, arrival, party, pets, vehicles, code)
         == NightLines(days, arrival, party, pets, vehicles, code)
    ensures ModerateLines(NightLines(days, arrival, party, pets, vehicles, code))
  {
    forall i | 0 <= i < |days| ensures FieldsFit(days[i]) {
      NightIsExact(days[i], party, pets, vehicles);
    }
    if days != [] {
      NightLinesAreExact(days[..|days| - 1], arrival, party, pets, vehicles, code);
      NightIsExact(days[|days| - 1], party, pets, vehicles);
    }
  }

  lemma LOSIsExact(los: seq<LengthDiscount>, nights: int, x: int)
    requires Within(x) && SmallBP(PercentAt(los, BestThreshold(los, nights)))
    ensures LOSDelta(los, nights, x)
         == if BestThreshold(los, nights) == 0 then 0
            else LOSDeltaMachine(PercentAt(los, BestThreshold(los, nights)), x)
  {
    PercentIsExact(x, PercentAt(los, BestThreshold(los, nights)));
  }

  lemma CampaignIsExact(c: Option<Discount>, x: int)
    requires Within(x) && SmallDiscount(c)
    ensures DiscountFits(c) && CampaignDeltaMachine(c, x) == CampaignDelta(c, x)
  {
    match c
    case None =>
    case Some(Percent(bp)) => PercentIsExact(x, bp);
    case Some(Fixed(minor)) =>
  }

  /** Neither discount takes the exact subtotal out of bounds. */
  predicate DiscountsStay(s: Snapshot, r: Request, x: int) {
    var stayed := LOSStage(s.los, r.Nights()).next(x);
    Within(stayed) && Within(CampaignStage(s.campaign).next(stayed))
  }

  lemma StayIsExact(s: Snapshot, r: Request, run: Running, most: nat)
    requires Moderate(run, most, s.plan.vatCode) && Within(LOSStage(s.los, r.Nights()).next(run.subtotal))
    requires SmallBP(PercentAt(s.los, BestThreshold(s.los, r.Nights())))
    ensures var out := RunStage(run, LOSStage(s.los, r.Nights()), s.plan.vatCode);
            Moderate(out, most + 1, s.plan.vatCode) && StayMachine(s, r, run.draft, run.subtotal) == out.draft
  {
    LOSIsExact(s.los, r.Nights(), run.subtotal);
    StageEmits(run, LOSStage(s.los, r.Nights()), LOSDelta(s.los, r.Nights(), run.subtotal), s.plan.vatCode);
    StageKeepsModerate(run, LOSStage(s.los, r.Nights()), most, s.plan.vatCode);
  }

  lemma CampaignStageIsExact(s: Snapshot, run: Running, most: nat)
    requires Moderate(run, most, s.plan.vatCode) && most <= MAX_LINES && SmallDiscount(s.campaign)
    requires Within(CampaignStage(s.campaign).next(run.subtotal))
    ensures var out := RunStage(run, CampaignStage(s.campaign), s.plan.vatCode);
            && Moderate(out, most + 1, s.plan.vatCode) && DiscountFits(s.campaign)
            && CampaignMachine(s, run.draft) == out.draft
  {
    GrossIsExact(run.draft.lines);
    CampaignIsExact(s.campaign, run.subtotal);
    StageEmits(run, CampaignStage(s.campaign), CampaignDelta(s.campaign, run.subtotal), s.plan.vatCode);
    StageKeepsModerate(run, CampaignStage(s.campaign), most, s.plan.vatCode);
  }

  lemma CapIsExact(s: Snapshot, run: Running, most: nat)
    requires Moderate(run, most, s.plan.vatCode) && most <= MAX_LINES
    ensures var out := RunStage(run, FloorStage(), s.plan.vatCode);
            Moderate(out, most + 1, s.plan.vatCode) && CapMachine(s, run.draft) == out.draft
  {
    GrossIsExact(run.draft.lines);
    StageKeepsModerate(run, FloorStage(), most, s.plan.vatCode);
  }

  lemma DiscountIsExact(s: Snapshot, r: Request, run: Running, most: nat)
    requires Moderate(run, most, s.plan.vatCode) && most + 3 <= MAX_LINES && DiscountsStay(s, r, run.subtotal)
    requires SmallDiscount(s.campaign) && SmallBP(PercentAt(s.los, BestThreshold(s.los, r.Nights())))
    ensures var out := RunStages(run, [LOSStage(s.los, r.Nights()), CampaignStage(s.campaign), FloorStage()],
                                 s.plan.vatCode);
            && Moderate(out, most + 3, s.plan.vatCode) && DiscountFits(s.campaign)
            && DiscountMachine(s, r, run.draft, run.subtotal) == out.draft
  {
    var code, los, campaign := s.plan.vatCode, LOSStage(s.los, r.Nights()), CampaignStage(s.campaign);
    PricingEngine.RunThree(run, los, campaign, FloorStage(), code);
    StayIsExact(s, r, run, most);
    CampaignStageIsExact(s, RunStage(run, los, code), most + 1);
    CapIsExact(s, RunStage(RunStage(run, los, code), campaign, code), most + 2);
  }

  // ---- VAT and totals ---------------------------------------------------------------------------------

  predicate ModerateSplit(l: Line) {
    && -(2 * STEP_BOUND) <= l.grossMinor <= 2 * STEP_BOUND
    && -(2 * STEP_BOUND) <= l.netMinor <= 2 * STEP_BOUND
    && -(2 * STEP_BOUND) <= l.vatMinor <= 2 * STEP_BOUND
  }

  lemma VATIsExact(l: Line, vat: VATCode)
    requires -(2 * STEP_BOUND) <= l.grossMinor <= 2 * STEP_BOUND
    ensures WithVATMachine(l, vat) == WithVAT(l, vat) && ModerateSplit(WithVAT(l, vat))
  {
    NetIsExact(l.grossMinor, vat.rateBP);
    NetFromGrossShape(l.grossMinor, vat.rateBP);
  }

  lemma {:induction false} LinesVATIsExact(lines: seq<Line>, codes: map<string, VATCode>)
    requires ModerateLines(lines)
    ensures ApplyVATMachine(lines, codes) == ApplyVAT(lines, codes)
    ensures ApplyVAT(lines, codes).Ok? ==> ModerateSplits(ApplyVAT(lines, codes).value)
  {
    if lines != [] {
      var n := |lines| - 1;
      LinesVATIsExact(lines[..n], codes);
      if lines[n].vatCode in codes {
        VATIsExact(lines[n], codes[lines[n].vatCode]);
      }
    }
  }

  predicate ModerateSplits(lines: seq<Line>) {
    forall i | 0 <= i < |lines| :: ModerateSplit(lines[i])
  }

  lemma {:induction false} NetsAreExact(lines: seq<Line>)
    requires ModerateSplits(lines) && |lines| <= MAX_LINES
    ensures NetMachine(lines) == NetOf(lines)
    ensures -(|lines| * (2 * STEP_BOUND)) <= NetOf(lines) <= |lines| * (2 * STEP_BOUND)
  {
    if lines != [] {
      var n := |lines| - 1;
      NetsAreExact(lines[..n]);
      RegisterStep(NetMachine(lines[..n]), NetOf(lines[..n]), lines[n].netMinor, n);
    }
  }

  lemma {:induction false} VATsAreExact(lines: seq<Line>)
    requires ModerateSplits(lines) && |lines| <= MAX_LINES
    ensures VATMachine(lines) == VATOf(lines)
    ensures -(|lines| * (2 * STEP_BOUND)) <= VATOf(lines) <= |lines| * (2 * STEP_BOUND)
  {
    if lines != [] {
      var n := |lines| - 1;
      VATsAreExact(lines[..n]);
      RegisterStep(VATMachine(lines[..n]), VATOf(lines[..n]), lines[n].vatMinor, n);
    }
  }

  lemma {:induction false} RatesAreExact(lines: seq<Line>)
    requires ModerateSplits(lines) && |lines| <= MAX_LINES
    ensures ByRateMachine(lines) == ByRate(lines)
    ensures forall rate | rate in ByRate(lines) ::
              -(|lines| * (2 * STEP_BOUND)) <= ByRate(lines)[rate] <= |lines| * (2 * STEP_BOUND)
  {
    if lines != [] {
      var n := |lines| - 1;
      RatesAreExact(lines[..n]);
      var before, rate := ByRate(lines[..n]), lines[n].vatRateBP;
      var sum := if rate in before then before[rate] else 0;
      RegisterStep(sum, sum, lines[n].vatMinor, n);
    }
  }

  lemma FinishIsExact(s: Snapshot, nights: int, draft: Draft)
    requires ModerateLines(draft.lines) && |draft.lines| <= MAX_LINES
    ensures FinishMachine(s, nights, draft) == Finish(s, nights, draft)
  {
    LinesVATIsExact(draft.lines, s.vatCodes);
    var split := ApplyVAT(draft.lines, s.vatCodes);
    if split.Ok? {
      assert ModerateLines(split.value);
      GrossIsExact(split.value);
      NetsAreExact(split.value);
      VATsAreExact(split.value);
      RatesAreExact(split.value);
    }
  }

  // ---- the whole engine ---------------------------------------------------------------------------------

  /** The exact price never leaves the bounds on its way through the pipeline. */
  ghost predicate StaysWithin(s: Snapshot, r: Request, base: int) {
    var derived := DeriveStage(s.plan).next(base);
    && AdjustersStay(derived, OrderedAdjusters(s), s.plan, r)
    && DiscountsStay(s, r, Through(derived, AdjusterStages(OrderedAdjusters(s), s.plan, r)))
  }

  lemma OpeningIsExact(s: Snapshot, r: Request, days: seq<RateDay>, party: Party)
    requires |days| <= MAX_STAY_NIGHTS && (forall i | 0 <= i < |days| :: SmallDay(days[i]))
    requires SmallBands(party.children) && 0 <= party.adults && party.adults + |party.children| <= MAX_PARTY
    requires r.pets <= MAX_PETS && r.vehicles <= MAX_VEHICLES && SmallPlan(s.plan)
    ensures (forall i | 0 <= i < |days| :: FieldsFit(days[i])) && BandsFit(party.children) && PlanFits(s.plan)
    ensures var run := Opening(s, r, days, party);
            && NightsMachine(days, party, r.pets, r.vehicles) == Int64.Exact(run.subtotal)
            && NightLinesMachine(days, r.stay.arrival, party, r.pets, r.vehicles, s.plan.vatCode) == run.draft.lines
            && Moderate(run, |days|, s.plan.vatCode)
            && -(36_865 * RATE_BOUND) <= run.subtotal <= 36_865 * RATE_BOUND
  {
    NightsAreExact(days, party, r.pets, r.vehicles);
    NightLinesAreExact(days, r.stay.arrival, party, r.pets, r.vehicles, s.plan.vatCode);
    OpeningBalances(s, r, days, party);
    DeriveMoveIsExact(s.plan, Opening(s, r, days, party).subtotal);
  }

  lemma AfterDerivationIsExact(s: Snapshot, r: Request, derived: Running, most: nat)
    requires Representable(s, r) && Validated(r) && 0 <= r.Nights() && SmallSnapshot(s, r)
    requires Moderate(derived, most, s.plan.vatCode) && most + MAX_ADJUSTERS + 3 <= MAX_LINES
    requires AdjustersStay(derived.subtotal, OrderedAdjusters(s), s.plan, r)
    requires DiscountsStay(s, r, Through(derived.subtotal, AdjusterStages(OrderedAdjusters(s), s.plan, r)))
    ensures var adjusted := RunStages(derived, AdjusterStages(OrderedAdjusters(s), s.plan, r), s.plan.vatCode);
            var out := RunStages(adjusted, [LOSStage(s.los, r.Nights()), CampaignStage(s.campaign), FloorStage()],
                                 s.plan.vatCode);
            && Moderate(out, most + MAX_ADJUSTERS + 3, s.plan.vatCode)
            && AfterDerivation(s, r, derived.draft, derived.subtotal).Going?
            && AfterDerivation(s, r, derived.draft, derived.subtotal).draft == out.draft
  {
    var adjusters := OrderedAdjusters(s);
    AdjustersAreExact(derived, adjusters, s.plan, r, most, s.plan.vatCode);
    DiscountIsExact(s, r, RunStages(derived, AdjusterStages(adjusters, s.plan, r), s.plan.vatCode),
                    most + |adjusters|);
  }

  lemma DeriveStepIsExact(opening: Running, plan: Plan, most: nat, code: string)
    requires Moderate(opening, most, code) && SmallPlan(plan)
    requires -(36_865 * RATE_BOUND) <= opening.subtotal <= 36_865 * RATE_BOUND
    ensures var out := RunStage(opening, DeriveStage(plan), code);
            && Moderate(out, most + 1, code) && out.subtotal == DeriveStage(plan).next(opening.subtotal)
            && PlanFits(plan) && Int64.Fits(opening.subtotal)
            && Advance(opening.draft, DerivedPlan, DeriveMachine(plan, opening.subtotal), code)
            == Going(out.draft, out.subtotal)
  {
    DeriveMoveIsExact(plan, opening.subtotal);
    StageKeepsModerate(opening, DeriveStage(plan), most, code);
  }

  lemma AfterNightsIsExact(s: Snapshot, r: Request, opening: Running, most: nat)
    requires Representable(s, r) && Validated(r) && 0 <= r.Nights() && SmallSnapshot(s, r)
    requires Moderate(opening, most, s.plan.vatCode) && most <= MAX_STAY_NIGHTS
    requires -(36_865 * RATE_BOUND) <= opening.subtotal <= 36_865 * RATE_BOUND
    requires StaysWithin(s, r, opening.subtotal)
    ensures var out := RunStages(opening, Stages(s, r), s.plan.vatCode);
            && Moderate(out, MAX_LINES, s.plan.vatCode)
            && AfterNights(s, r, opening.draft, opening.subtotal).Going?
            && AfterNights(s, r, opening.draft, opening.subtotal).draft == out.draft
  {
    DeriveStepIsExact(opening, s.plan, most, s.plan.vatCode);
    AfterDerivationIsExact(s, r, RunStage(opening, DeriveStage(s.plan), s.plan.vatCode), most + 1);
    PricingEngine.StagesInThree(s, r, opening);
  }

  lemma SmallFit(s: Snapshot, r: Request)
    requires SmallPlan(s.plan) && SmallChanges(OrderedAdjusters(s)) && SmallDiscount(s.campaign)
    ensures PlanFits(s.plan) && ChangesFit(OrderedAdjusters(s)) && DiscountFits(s.campaign)
  {
    var adjusters := OrderedAdjusters(s);
    forall i | 0 <= i < |adjusters| ensures ChangeFits(adjusters[i].change) {
      assert SmallChange(adjusters[i].change);
    }
  }

  lemma SmallNightsFit(days: seq<RateDay>, party: Party)
    requires (forall i | 0 <= i < |days| :: SmallDay(days[i])) && SmallBands(party.children)
    ensures (forall i | 0 <= i < |days| :: FieldsFit(days[i])) && BandsFit(party.children)
  {
  }

  lemma SmallIsRepresentable(s: Snapshot, r: Request)
    requires Validated(r) && SmallSnapshot(s, r)
    ensures Representable(s, r)
  {
    SmallFit(s, r);
    if Admit(s, r).Ok? {
      var (days, party) := Admit(s, r).value;
      AdmittedIsSmall(s, r, days, party);
      SmallNightsFit(days, party);
    }
  }

  lemma ComposeIsExact(s: Snapshot, r: Request, days: seq<RateDay>, party: Party)
    requires Validated(r) && SmallSnapshot(s, r) && Representable(s, r) && Admit(s, r) == Ok((days, party))
    requires StaysWithin(s, r, Opening(s, r, days, party).subtotal)
    ensures ComposeMachine(s, r, days, party).Going?
    ensures ComposeMachine(s, r, days, party).draft == Compose(s, r, days, party)
    ensures ModerateLines(Compose(s, r, days, party).lines) && |Compose(s, r, days, party).lines| <= MAX_LINES
  {
    AdmittedIsSmall(s, r, days, party);
    OpeningIsExact(s, r, days, party);
    AfterNightsIsExact(s, r, Opening(s, r, days, party), |days|);
  }

  lemma AdmittedIsSmall(s: Snapshot, r: Request, days: seq<RateDay>, party: Party)
    requires Validated(r) && SmallSnapshot(s, r) && Admit(s, r) == Ok((days, party))
    ensures 0 < |days| == r.Nights() <= MAX_STAY_NIGHTS && forall i | 0 <= i < |days| :: SmallDay(days[i])
    ensures SmallBands(party.children) && 0 <= party.adults && party.adults + |party.children| <= MAX_PARTY
  {
    SortedBandsStaySmall(s.ageBands);
    ClassifyCounts(Sorting.StableSort(s.ageBands, BandLeq), r.adults, r.children);
  }

  /** For every party and stay the validators admit, every figure within its bound, and a
      price that never leaves the bounds on its way: the engine in 64 bits neither panics
      nor wraps, and answers with the exact quote, line by line, or the exact refusal. */
  lemma PriceIsExact(s: Snapshot, r: Request)
    requires Validated(r) && SmallSnapshot(s, r)
    requires Admit(s, r).Ok? ==>
               StaysWithin(s, r, Opening(s, r, Admit(s, r).value.0, Admit(s, r).value.1).subtotal)
    ensures Representable(s, r)
    ensures PriceMachine(s, r) == Returned(Price(s, r))
  {
    SmallIsRepresentable(s, r);
    if Admit(s, r).Ok? {
      var (days, party) := Admit(s, r).value;
      ComposeIsExact(s, r, days, party);
      FinishIsExact(s, r.Nights(), Compose(s, r, days, party));
    }
  }

  // ---- when the price stays within bounds -----------------------------------------------------------------

  /** A discount of up to the whole never enlarges an amount. */
  lemma PercentOff(x: int, bp: int)
    requires 0 <= bp <= 10000
    ensures Int64.Abs(x - Money.MulBP(x, bp)) <= Int64.Abs(x)
  {
    if x >= 0 {
      PercentOfPositive(x, bp);
    } else {
      PercentOfPositive(-x, bp);
      Money.MulBPNegates(x, bp);
    }
  }

  lemma PercentOfPositive(x: int, bp: int)
    requires 0 <= bp <= 10000 && x >= 0
    ensures 0 <= Money.MulBP(x, bp) <= x
  {
    PartOfWhole(x, bp);
    Money.DivRoundBounds(x * bp, 10000, 0);
    Money.DivRoundBounds(x * bp, 10000, x);
  }

  lemma PartOfWhole(x: int, bp: int)
    requires 0 <= bp <= 10000 && x >= 0
    ensures 0 <= x * bp <= x * 10000
  {
    Money.MulLe(0, bp, x);
    Money.MulLe(bp, 10000, x);
  }

  /** What the tables allow of discounts, and a campaign amount below the bound on rates. */
  predicate DiscountsAreDiscounts(s: Snapshot, r: Request) {
    && 0 <= PercentAt(s.los, BestThreshold(s.los, r.Nights())) <= 10000
    && match s.campaign
       case None => true
       case Some(Percent(bp)) => 0 <= bp <= 10000
       case Some(Fixed(minor)) => 0 <= minor <= RATE_BOUND
  }

  lemma DiscountsKeepWithin(s: Snapshot, r: Request, x: int)
    requires -DERIVED_BOUND <= x <= DERIVED_BOUND && DiscountsAreDiscounts(s, r)
    ensures DiscountsStay(s, r, x)
  {
    PercentOff(x, PercentAt(s.los, BestThreshold(s.los, r.Nights())));
    var stayed := LOSStage(s.los, r.Nights()).next(x);
    match s.campaign
    case None =>
    case Some(Percent(bp)) => PercentOff(stayed, bp);
    case Some(Fixed(minor)) =>
  }

  /** A floor and a ceiling. */
  predicate Bounded(p: Plan) {
    p.minPriceMinor.Some? && p.maxPriceMinor.Some? && p.minPriceMinor.value <= p.maxPriceMinor.value
  }

  lemma AdjustedWithin(x: int, adjusters: seq<Adjuster>, plan: Plan, r: Request)
    requires -DERIVED_BOUND <= x <= DERIVED_BOUND && SmallPlan(plan) && Bounded(plan)
    requires 0 <= r.Nights() <= MAX_STAY_NIGHTS
    ensures -DERIVED_BOUND <= Through(x, AdjusterStages(adjusters, plan, r)) <= DERIVED_BOUND
  {
    PricingAdjusters.AdjustersRespectBounds(x, adjusters, plan, r);
    TimesSmall(plan.minPriceMinor.value, r.Nights(), MAX_STAY_NIGHTS);
    TimesSmall(plan.maxPriceMinor.value, r.Nights(), MAX_STAY_NIGHTS);
  }

  /** A plan with a floor and a ceiling keeps every price within bounds, however many
      adjusters apply and whatever they ask for. */
  lemma FloorAndCeilingSuffice(s: Snapshot, r: Request, base: int)
    requires -(36_865 * RATE_BOUND) <= base <= 36_865 * RATE_BOUND && 0 <= r.Nights() <= MAX_STAY_NIGHTS
    requires SmallPlan(s.plan) && Bounded(s.plan) && DiscountsAreDiscounts(s, r)
    ensures StaysWithin(s, r, base)
  {
    var adjusters := OrderedAdjusters(s);
    DeriveMoveIsExact(s.plan, base);
    var derived := DeriveStage(s.plan).next(base);
    forall k | 0 <= k <= |adjusters| ensures Within(Through(derived, AdjusterStages(adjusters[..k], s.plan, r))) {
      AdjustedWithin(derived, adjusters[..k], s.plan, r);
    }
    AdjustedWithin(derived, adjusters, s.plan, r);
    DiscountsKeepWithin(s, r, Through(derived, AdjusterStages(adjusters, s.plan, r)));
  }

  /** So on such a plan, within bounds on its figures alone, the machine's quote is the
      exact one. */
  lemma BoundedPlanIsExact(s: Snapshot, r: Request)
    requires Validated(r) && SmallSnapshot(s, r) && Bounded(s.plan) && DiscountsAreDiscounts(s, r)
    ensures Representable(s, r)
    ensures PriceMachine(s, r) == Returned(Price(s, r))
  {
    if Admit(s, r).Ok? {
      var (days, party) := Admit(s, r).value;
      AdmittedIsSmall(s, r, days, party);
      OpeningIsExact(s, r, days, party);
      FloorAndCeilingSuffice(s, r, Opening(s, r, days, party).subtotal);
    }
    PriceIsExact(s, r);
  }
}
