/** The quote as a ledger: what each line must be, said rule by rule without the
    engine, and when a stay is refused and why. */
module PricingLedger {
  import opened Dates
  import opened Options
  import opened Pricing
  import opened PricingBalance
  import opened PricingRules
  import opened PricingAdjusters
  import PricingEngine
  import Money
  import Sorting

  // ---- the rules ------------------------------------------------------------------------------

  /** A derived plan adds a rounded share of the nights, or an amount. */
  ghost predicate Derives(plan: Plan, x: int, next: int) {
    match plan.derive
    case NotDerived => next == x
    case DerivedPercent(bp) => Money.IsRounded(x * bp, 10000, next - x)
    case DerivedAmount(minor) => next - x == minor
  }

  /** What an adjuster asks for: the subtotal times its factor, or so much a night more. */
  ghost predicate Asks(c: Change, nights: int, x: int, wanted: int) {
    match c
    case Factor(bp) => Money.IsRounded(x * bp, 10000, wanted)
    case PerNight(minor) => wanted - x == minor * nights
  }

  /** What it gets: that, or the plan's floor or ceiling for the stay if it would pass it. */
  ghost predicate Gets(plan: Plan, nights: int, wanted: int, next: int) {
    var floor, ceiling := plan.minPriceMinor, plan.maxPriceMinor;
    if floor.Some? && floor.value * nights > wanted then next == floor.value * nights
    else if ceiling.Some? && wanted > ceiling.value * nights then next == ceiling.value * nights
    else next == wanted
  }

  /** An adjuster in its windows acts; any other leaves the subtotal alone. */
  ghost predicate Adjusts(a: Adjuster, plan: Plan, r: Request, x: int, next: int) {
    if InWindow(a, r)
    then exists wanted :: Asks(a.change, r.Nights(), x, wanted) && Gets(plan, r.Nights(), wanted, next)
    else next == x
  }

  /** The governing length-of-stay rule takes a rounded share off; none takes nothing. */
  ghost predicate TakesLOS(los: seq<LengthDiscount>, nights: int, x: int, next: int) {
    && (forall k: nat | Governs(los, nights, k) :: Money.IsRounded(x * los[k].percentBP, 10000, x - next))
    && ((forall k: nat :: !Governs(los, nights, k)) ==> next == x)
  }

  ghost predicate TakesCampaign(c: Option<Discount>, x: int, next: int) {
    match c
    case None => next == x
    case Some(Percent(bp)) => Money.IsRounded(x * bp, 10000, x - next)
    case Some(Fixed(minor)) => x - next == minor
  }

  /** The running subtotals of a quote: the nights; derivation; each adjuster in turn; length
      of stay; campaign; and the cap at nothing. */
  ghost predicate IsLedger(s: Snapshot, r: Request, xs: seq<int>) {
    var adjusters := OrderedAdjusters(s);
    var n := |adjusters|;
    && |xs| == n + 5
    && Derives(s.plan, xs[0], xs[1])
    && (forall k | 0 <= k < n :: Adjusts(adjusters[k], s.plan, r, xs[k + 1], xs[k + 2]))
    && TakesLOS(s.los, r.Nights(), xs[n + 1], xs[n + 2])
    && TakesCampaign(s.campaign, xs[n + 2], xs[n + 3])
    && (if xs[n + 3] < 0 then xs[n + 4] == 0 else xs[n + 4] == xs[n + 3])
  }

  /** Which rule makes the k-th move, of n adjusters. */
  function KindAt(k: int, n: nat): Kind {
    if k == 0 then DerivedPlan
    else if k <= n then AdjusterLine
    else if k == n + 1 then LOSDiscount
    else if k == n + 2 then CampaignLine
    else Rounding
  }

  /** The moves of the first k rules, those of nothing left out. */
  function Moves(xs: seq<int>, n: nat, k: nat): seq<(Kind, int)>
    requires k < |xs|
  {
    if k == 0 then []
    else Moves(xs, n, k - 1) + if xs[k] == xs[k - 1] then [] else [(KindAt(k - 1, n), xs[k] - xs[k - 1])]
  }

  function Amounts(lines: seq<Line>): (m: seq<(Kind, int)>)
    ensures |m| == |lines|
  {
    seq(|lines|, i requires 0 <= i < |lines| => (lines[i].kind, lines[i].grossMinor))
  }

  function Effects(steps: seq<Step>): (m: seq<(Kind, int)>)
    ensures |m| == |steps|
  {
    seq(|steps|, i requires 0 <= i < |steps| => (steps[i].rule, steps[i].effect))
  }

  /** A night's line: that night, at the night's price. */
  ghost predicate IsNightLine(s: Snapshot, r: Request, i: nat, l: Line) {
    var day := r.stay.arrival + i;
    && l.kind == Accommodation && l.stayDate == Some(day) && day in s.days
    && l.grossMinor == NightPrice(s.days[day], PartyOf(s, r), r.pets, r.vehicles) && l.unitGrossMinor == l.grossMinor
  }

  /** Any other line has no night and no unit price. */
  ghost predicate IsMoveLine(l: Line) {
    l.stayDate == None && l.unitGrossMinor == 0
  }

  /** VAT is backed out of the gross at the rate of the plan's code. */
  ghost predicate IsTaxed(s: Snapshot, l: Line) {
    && l.vatCode == s.plan.vatCode && l.vatCode in s.vatCodes
    && var vat := s.vatCodes[l.vatCode];
    && l.vatRateBP == vat.rateBP && l.vatTreatment == vat.treatment
    && Money.IsRounded(l.grossMinor * 10000, 10000 + vat.rateBP, l.netMinor)
    && l.vatMinor == l.grossMinor - l.netMinor
  }

  /** A line for each night and then one for each move. */
  ghost predicate LinesSay(s: Snapshot, r: Request, lines: seq<Line>, xs: seq<int>) {
    var nights := r.Nights();
    && 0 < nights <= |lines| && 0 < |xs|
    && (forall i: nat | i < nights :: IsNightLine(s, r, i, lines[i]))
    && (forall i | nights <= i < |lines| :: IsMoveLine(lines[i]))
    && (forall i | 0 <= i < |lines| :: lines[i].qty == 1)
    && GrossOf(lines[..nights]) == xs[0]
    && Amounts(lines[nights..]) == Moves(xs, |OrderedAdjusters(s)|, |xs| - 1)
  }

  /** The trace gives the nights together and then each move. */
  ghost predicate StepsSay(s: Snapshot, steps: seq<Step>, xs: seq<int>) {
    0 < |xs| && Effects(steps) == [(Accommodation, xs[0])] + Moves(xs, |OrderedAdjusters(s)|, |xs| - 1)
  }

  /** The quote says this ledger and nothing else, its last subtotal being the total. */
  ghost predicate Says(s: Snapshot, r: Request, q: Quote, xs: seq<int>) {
    && IsLedger(s, r, xs) && q.nights == r.Nights()
    && LinesSay(s, r, q.lines, xs) && StepsSay(s, q.explain, xs)
    && (forall i | 0 <= i < |q.lines| :: IsTaxed(s, q.lines[i]))
    && q.totals.grossMinor == xs[|xs| - 1] && q.totals.currency == s.plan.currency
  }

  // ---- each stage follows its rule ----------------------------------------------------------------

  lemma DeriveFollows(plan: Plan, x: int)
    ensures Derives(plan, x, DeriveStage(plan).next(x))
  {
    match plan.derive
    case DerivedPercent(bp) => Money.DivRoundIsRounded(x * bp, 10000);
    case _ =>
  }

  /** In its windows an adjuster takes the subtotal to what it asks for, or to the bound it
      would pass; out of them it does nothing. */
  lemma AdjusterFollows(a: Adjuster, plan: Plan, r: Request, x: int)
    ensures Adjusts(a, plan, r, x, AdjusterStage(a, plan, r).next(x))
  {
    var wanted := x + AdjusterDelta(a.change, x, r.Nights());
    match a.change {
      case Factor(bp) => Money.DivRoundIsRounded(x * bp, 10000);
      case PerNight(minor) =>
    }
    assert Asks(a.change, r.Nights(), x, wanted);
    if InWindow(a, r) {
      assert Gets(plan, r.Nights(), wanted, AdjusterStage(a, plan, r).next(x));
    }
  }

  lemma LOSFollows(los: seq<LengthDiscount>, nights: int, x: int)
    ensures TakesLOS(los, nights, x, LOSStage(los, nights).next(x))
  {
    forall k: nat | Governs(los, nights, k)
      ensures Money.IsRounded(x * los[k].percentBP, 10000, x - LOSStage(los, nights).next(x))
    {
      LongestStayRuleApplies(los, nights, x, k);
      Money.DivRoundIsRounded(x * los[k].percentBP, 10000);
    }
    LongestStayRuleApplies(los, nights, x, 0);
  }

  lemma CampaignFollows(c: Option<Discount>, x: int)
    ensures TakesCampaign(c, x, CampaignStage(c).next(x))
  {
    match c
    case Some(Percent(bp)) => Money.DivRoundIsRounded(x * bp, 10000);
    case _ =>
  }

  // ---- the subtotals, and the lines they leave ------------------------------------------------------

  function Subtotals(x: int, stages: seq<Stage>): (xs: seq<int>)
    ensures |xs| == |stages| + 1
  {
    if stages == [] then [x]
    else
      var before := Subtotals(x, stages[..|stages| - 1]);
      before + [stages[|stages| - 1].next(before[|stages| - 1])]
  }

  lemma {:induction false} SubtotalsFollow(x: int, stages: seq<Stage>)
    ensures Subtotals(x, stages)[0] == x
    ensures forall k | 0 <= k < |stages| :: Subtotals(x, stages)[k + 1] == stages[k].next(Subtotals(x, stages)[k])
  {
    if stages != [] {
      SubtotalsFollow(x, stages[..|stages| - 1]);
    }
  }

  lemma StagesAre(s: Snapshot, r: Request)
    ensures var stages, n := Stages(s, r), |OrderedAdjusters(s)|;
            && |stages| == n + 4 && stages[0] == DeriveStage(s.plan)
            && (forall k | 0 <= k < n :: stages[k + 1] == AdjusterStage(OrderedAdjusters(s)[k], s.plan, r))
            && stages[n + 1] == LOSStage(s.los, r.Nights()) && stages[n + 2] == CampaignStage(s.campaign)
            && stages[n + 3] == FloorStage()
            && (forall k | 0 <= k < n + 4 :: stages[k].kind == KindAt(k, n))
  {
  }

  lemma LedgerFollows(s: Snapshot, r: Request, base: int)
    ensures IsLedger(s, r, Subtotals(base, Stages(s, r)))
  {
    var adjusters, xs := OrderedAdjusters(s), Subtotals(base, Stages(s, r));
    var n := |adjusters|;
    StagesAre(s, r);
    SubtotalsFollow(base, Stages(s, r));
    DeriveFollows(s.plan, xs[0]);
    forall k | 0 <= k < n ensures Adjusts(adjusters[k], s.plan, r, xs[k + 1], xs[k + 2]) {
      AdjusterFollows(adjusters[k], s.plan, r, xs[k + 1]);
      assert xs[k + 1 + 1] == Stages(s, r)[k + 1].next(xs[k + 1]);
    }
    LOSFollows(s.los, r.Nights(), xs[n + 1]);
    CampaignFollows(s.campaign, xs[n + 2]);
    assert xs[n + 1 + 1] == Stages(s, r)[n + 1].next(xs[n + 1]);
    assert xs[n + 2 + 1] == Stages(s, r)[n + 2].next(xs[n + 2]);
    assert xs[n + 3 + 1] == Stages(s, r)[n + 3].next(xs[n + 3]);
  }

  lemma {:induction false} MovesPrefix(xs: seq<int>, ys: seq<int>, n: nat, k: nat)
    requires k < |xs| && k < |ys| && forall i | 0 <= i <= k :: xs[i] == ys[i]
    ensures Moves(xs, n, k) == Moves(ys, n, k)
  {
    if k > 0 {
      MovesPrefix(xs, ys, n, k - 1);
    }
  }

  /** What a run of stages added to a draft: a line and a step for each move. */
  ghost predicate Added(before: Draft, after: Draft, moves: seq<(Kind, int)>, code: string) {
    && before.lines <= after.lines && before.explain <= after.explain
    && Amounts(after.lines[|before.lines|..]) == moves
    && Effects(after.explain[|before.explain|..]) == moves
    && forall i | |before.lines| <= i < |after.lines| ::
         IsMoveLine(after.lines[i]) && after.lines[i].qty == 1 && after.lines[i].vatCode == code
  }

  lemma AddedOne(start: Draft, before: Draft, moves: seq<(Kind, int)>, kind: Kind, effect: int, code: string)
    requires Added(start, before, moves, code)
    ensures Added(start, EmitUnlessZero(before, kind, effect, code),
                  moves + if effect == 0 then [] else [(kind, effect)], code)
  {
    if effect == 0 {
      assert moves + [] == moves;
    } else {
      var after := Emit(before, kind, effect, code);
      assert after.lines[|start.lines|..] == before.lines[|start.lines|..] + [after.lines[|before.lines|]];
      assert after.explain[|start.explain|..]
          == before.explain[|start.explain|..] + [after.explain[|before.explain|]];
    }
  }

  lemma {:induction false} StagesAdd(run: Running, stages: seq<Stage>, n: nat, code: string)
    requires forall k | 0 <= k < |stages| :: stages[k].kind == KindAt(k, n)
    ensures var out, xs := RunStages(run, stages, code), Subtotals(run.subtotal, stages);
            && out.subtotal == xs[|stages|]
            && Added(run.draft, out.draft, Moves(xs, n, |stages|), code)
  {
    if stages != [] {
      var m := |stages| - 1;
      var before, xs := RunStages(run, stages[..m], code), Subtotals(run.subtotal, stages);
      StagesAdd(run, stages[..m], n, code);
      MovesPrefix(Subtotals(run.subtotal, stages[..m]), xs, n, m);
      AddedOne(run.draft, before.draft, Moves(xs, n, m), stages[m].kind, xs[m + 1] - xs[m], code);
    }
  }

  // ---- the nights --------------------------------------------------------------------------------------

  lemma {:induction false} NightLinesAre(days: seq<RateDay>, arrival: int, party: Party, pets: int, vehicles: int,
                                         code: string)
    ensures var lines := NightLines(days, arrival, party, pets, vehicles, code);
            && |lines| == |days|
            && forall i | 0 <= i < |days| ::
                 && lines[i].kind == Accommodation && lines[i].stayDate == Some(arrival + i) && lines[i].qty == 1
                 && lines[i].grossMinor == lines[i].unitGrossMinor == NightPrice(days[i], party, pets, vehicles)
                 && lines[i].vatCode == code
  {
    if days != [] {
      NightLinesAre(days[..|days| - 1], arrival, party, pets, vehicles, code);
    }
  }

  // ---- the whole quote -----------------------------------------------------------------------------------

  /** A taxed line is the draft's line with its tax filled in. */
  ghost predicate SameLine(a: Line, b: Line) {
    && a.kind == b.kind && a.stayDate == b.stayDate && a.qty == b.qty && a.unitGrossMinor == b.unitGrossMinor
    && a.grossMinor == b.grossMinor && a.vatCode == b.vatCode
  }

  lemma TaxedLines(s: Snapshot, draft: Draft)
    requires ApplyVAT(draft.lines, s.vatCodes).Ok? && AllAt(draft.lines, s.plan.vatCode)
    ensures var lines := ApplyVAT(draft.lines, s.vatCodes).value;
            forall i | 0 <= i < |draft.lines| :: SameLine(lines[i], draft.lines[i]) && IsTaxed(s, lines[i])
  {
    var lines := ApplyVAT(draft.lines, s.vatCodes).value;
    forall i | 0 <= i < |draft.lines| ensures SameLine(lines[i], draft.lines[i]) && IsTaxed(s, lines[i]) {
      var l := draft.lines[i];
      assert lines[i] == WithVAT(l, s.vatCodes[l.vatCode]);
      Money.DivRoundIsRounded(l.grossMinor * 10000, 10000 + s.vatCodes[l.vatCode].rateBP);
    }
  }

  lemma LinesFollow(s: Snapshot, r: Request, opening: Draft, draft: Draft, xs: seq<int>)
    requires 0 < r.Nights() == |opening.lines| && 0 < |xs|
    requires forall i: nat | i < |opening.lines| :: IsNightLine(s, r, i, opening.lines[i]) && opening.lines[i].qty == 1
    requires GrossOf(opening.lines) == xs[0]
    requires Added(opening, draft, Moves(xs, |OrderedAdjusters(s)|, |xs| - 1), s.plan.vatCode)
    ensures LinesSay(s, r, draft.lines, xs)
  {
    assert draft.lines[..r.Nights()] == opening.lines;
  }

  lemma StepsFollow(before: seq<Step>, after: seq<Step>, base: int, moves: seq<(Kind, int)>)
    requires before == [Step(Accommodation, base)] && before <= after && Effects(after[1..]) == moves
    ensures Effects(after) == [(Accommodation, base)] + moves
  {
    assert after[0] == before[0];
    forall i | 0 <= i < |after| ensures Effects(after)[i] == ([(Accommodation, base)] + moves)[i] {
      if i > 0 {
        assert after[i] == after[1..][i - 1];
      }
    }
  }

  lemma NightsFollow(s: Snapshot, r: Request, days: seq<RateDay>, lines: seq<Line>)
    requires |days| == r.Nights() && lines == NightLines(days, r.stay.arrival, PartyOf(s, r), r.pets, r.vehicles,
                                                         s.plan.vatCode)
    requires forall i | 0 <= i < |days| :: r.stay.arrival + i in s.days && days[i] == s.days[r.stay.arrival + i]
    ensures |lines| == |days|
    ensures forall i: nat | i < |lines| :: IsNightLine(s, r, i, lines[i]) && lines[i].qty == 1
  {
    NightLinesAre(days, r.stay.arrival, PartyOf(s, r), r.pets, r.vehicles, s.plan.vatCode);
  }

  lemma OpeningNights(s: Snapshot, r: Request, days: seq<RateDay>, party: Party)
    requires Admit(s, r) == Ok((days, party))
    ensures var opening := Opening(s, r, days, party);
            && 0 < r.Nights() == |opening.draft.lines|
            && opening.draft.explain == [Step(Accommodation, opening.subtotal)]
            && GrossOf(opening.draft.lines) == opening.subtotal && Balanced(opening.draft, s.plan.vatCode)
            && forall i: nat | i < r.Nights() ::
                 IsNightLine(s, r, i, opening.draft.lines[i]) && opening.draft.lines[i].qty == 1
  {
    NightsFollow(s, r, days, Opening(s, r, days, party).draft.lines);
    OpeningBalances(s, r, days, party);
  }

  /** What the pipeline adds to a balanced opening, and where it ends. */
  lemma PipelineAdds(s: Snapshot, r: Request, opening: Running)
    requires Balanced(opening.draft, s.plan.vatCode) && GrossOf(opening.draft.lines) == opening.subtotal
    ensures var draft := RunStages(opening, Stages(s, r), s.plan.vatCode).draft;
            var xs := Subtotals(opening.subtotal, Stages(s, r));
            && |xs| == |OrderedAdjusters(s)| + 5 && xs[0] == opening.subtotal
            && Added(opening.draft, draft, Moves(xs, |OrderedAdjusters(s)|, |xs| - 1), s.plan.vatCode)
            && GrossOf(draft.lines) == xs[|xs| - 1]
  {
    StagesAre(s, r);
    SubtotalsFollow(opening.subtotal, Stages(s, r));
    StagesAdd(opening, Stages(s, r), |OrderedAdjusters(s)|, s.plan.vatCode);
    StagesConserve(opening, Stages(s, r), s.plan.vatCode);
  }

  lemma ComposeFollows(s: Snapshot, r: Request, days: seq<RateDay>, party: Party)
    requires Admit(s, r) == Ok((days, party))
    ensures var draft := Compose(s, r, days, party);
            var xs := Subtotals(SumNights(days, party, r.pets, r.vehicles), Stages(s, r));
            && LinesSay(s, r, draft.lines, xs) && StepsSay(s, draft.explain, xs)
            && GrossOf(draft.lines) == xs[|xs| - 1]
  {
    var opening, draft := Opening(s, r, days, party), Compose(s, r, days, party);
    var xs := Subtotals(opening.subtotal, Stages(s, r));
    OpeningNights(s, r, days, party);
    PipelineAdds(s, r, opening);
    LinesFollow(s, r, opening.draft, draft, xs);
    StepsFollow(opening.draft.explain, draft.explain, xs[0], Moves(xs, |OrderedAdjusters(s)|, |xs| - 1));
  }

  lemma TaxingKeepsLines(s: Snapshot, r: Request, lines: seq<Line>, taxed: seq<Line>, xs: seq<int>)
    requires LinesSay(s, r, lines, xs) && |taxed| == |lines|
    requires forall i | 0 <= i < |lines| :: SameLine(taxed[i], lines[i])
    ensures LinesSay(s, r, taxed, xs)
  {
    var nights := r.Nights();
    GrossDependsOnGross(taxed[..nights], lines[..nights]);
    assert Amounts(taxed[nights..]) == Amounts(lines[nights..]);
    forall i: nat | i < nights ensures IsNightLine(s, r, i, taxed[i]) {
      assert IsNightLine(s, r, i, lines[i]);
    }
  }

  lemma FinishSays(s: Snapshot, r: Request, draft: Draft, xs: seq<int>)
    requires LinesSay(s, r, draft.lines, xs) && StepsSay(s, draft.explain, xs)
    requires IsLedger(s, r, xs) && AllAt(draft.lines, s.plan.vatCode)
    requires GrossOf(draft.lines) == xs[|xs| - 1] && Finish(s, r.Nights(), draft).Ok?
    ensures Says(s, r, Finish(s, r.Nights(), draft).value, xs)
  {
    var q := Finish(s, r.Nights(), draft).value;
    TaxedLines(s, draft);
    GrossDependsOnGross(q.lines, draft.lines);
    TaxingKeepsLines(s, r, draft.lines, q.lines, xs);
  }

  /** Every quote says a ledger: its lines are the nights at their prices and then one line
      for each rule that moved the price, in order, each by what that rule demands. */
  lemma QuoteIsALedger(s: Snapshot, r: Request) returns (xs: seq<int>)
    requires Price(s, r).Ok?
    ensures Says(s, r, Price(s, r).value, xs)
  {
    var (days, party) := Admit(s, r).value;
    xs := Subtotals(SumNights(days, party, r.pets, r.vehicles), Stages(s, r));
    ComposeFollows(s, r, days, party);
    ComposeBalances(s, r, days, party);
    LedgerFollows(s, r, SumNights(days, party, r.pets, r.vehicles));
    FinishSays(s, r, Compose(s, r, days, party), xs);
  }

  // ---- one adjuster -------------------------------------------------------------------------------------

  lemma {:induction false} MovesShow(xs: seq<int>, n: nat, k: nat, at: nat)
    requires 0 < at <= k < |xs| && xs[at] != xs[at - 1]
    ensures (KindAt(at - 1, n), xs[at] - xs[at - 1]) in Moves(xs, n, k)
  {
    if at < k {
      MovesShow(xs, n, k - 1, at);
    }
  }

  /** An adjuster in its windows that moves the subtotal has a line of that amount. */
  lemma EachAdjusterHasItsLine(s: Snapshot, r: Request, q: Quote, xs: seq<int>, k: nat) returns (i: nat)
    requires Says(s, r, q, xs) && k < |OrderedAdjusters(s)| && xs[k + 1] != xs[k + 2]
    ensures InWindow(OrderedAdjusters(s)[k], r)
    ensures i < |q.lines| && q.lines[i].kind == AdjusterLine && q.lines[i].grossMinor == xs[k + 2] - xs[k + 1]
  {
    assert Adjusts(OrderedAdjusters(s)[k], s.plan, r, xs[k + 1], xs[k + 2]);
    MovesShow(xs, |OrderedAdjusters(s)|, |xs| - 1, k + 2);
    var j :| 0 <= j < |q.lines[r.Nights()..]|
          && Amounts(q.lines[r.Nights()..])[j] == (AdjusterLine, xs[k + 2] - xs[k + 1]);
    i := r.Nights() + j;
  }

  ghost predicate PlainPlan(s: Snapshot) {
    && s.los == [] && s.campaign == None && s.plan.derive == NotDerived
    && s.plan.minPriceMinor == None && s.plan.maxPriceMinor == None
  }

  lemma LoneLedger(s: Snapshot, r: Request, xs: seq<int>, a: Adjuster)
    requires IsLedger(s, r, xs) && PlainPlan(s) && OrderedAdjusters(s) == [a] && InWindow(a, r)
    ensures |xs| == 6 && xs[1] == xs[0] && Asks(a.change, r.Nights(), xs[0], xs[2])
    ensures xs[5] == if xs[2] < 0 then 0 else xs[2]
  {
    assert Adjusts(OrderedAdjusters(s)[0], s.plan, r, xs[0 + 1], xs[0 + 2]);
    assert forall k: nat :: !Governs(s.los, r.Nights(), k);
  }

  /** The total is what the adjuster asks for, and the difference from the nights is a line. */
  ghost predicate LoneSays(r: Request, q: Quote, a: Adjuster, nights: int, wanted: int) {
    && 0 <= r.Nights() <= |q.lines| && nights == GrossOf(q.lines[..r.Nights()])
    && Asks(a.change, r.Nights(), nights, wanted)
    && q.totals.grossMinor == (if wanted < 0 then 0 else wanted)
    && (wanted != nights ==>
          exists i :: 0 <= i < |q.lines| && q.lines[i].kind == AdjusterLine && q.lines[i].grossMinor == wanted - nights)
  }

  lemma LoneLedgerSays(s: Snapshot, r: Request, q: Quote, xs: seq<int>, a: Adjuster)
    requires Says(s, r, q, xs) && PlainPlan(s) && OrderedAdjusters(s) == [a] && InWindow(a, r)
    ensures |xs| == 6 && LoneSays(r, q, a, xs[0], xs[2])
  {
    LoneLedger(s, r, xs, a);
    if xs[2] != xs[1] {
      var i := EachAdjusterHasItsLine(s, r, q, xs, 0);
    }
  }

  lemma OneIsOrdered(s: Snapshot, a: Adjuster)
    requires s.adjusters == [a]
    ensures OrderedAdjusters(s) == [a]
  {
    assert Sorting.StableSort(s.adjusters[1..], AdjusterLeq) == [];
  }

  /** On a plain plan with one adjuster in its windows and no discounts, the adjuster acts. */
  lemma LoneAdjusterActs(s: Snapshot, r: Request, a: Adjuster)
    requires Price(s, r).Ok? && s.adjusters == [a] && InWindow(a, r) && PlainPlan(s)
    ensures exists nights, wanted :: LoneSays(r, Price(s, r).value, a, nights, wanted)
  {
    var xs := QuoteIsALedger(s, r);
    OneIsOrdered(s, a);
    LoneLedgerSays(s, r, Price(s, r).value, xs, a);
  }

  // ---- refusals -----------------------------------------------------------------------------------------

  /** Every night of the stay has a rate. */
  ghost predicate Rated(s: Snapshot, r: Request) {
    r.Nights() > 0 && forall d | r.stay.arrival <= d < r.stay.departure :: d in s.days
  }

  /** What each rule forbids: of the first night's row but for closure and departure. */
  ghost predicate Breaks(s: Snapshot, r: Request, reason: Reason)
    requires Rated(s, r)
  {
    var first, last := s.days[r.stay.arrival], s.days[r.stay.departure - 1];
    match reason
    case Closed => exists d | d in s.days :: r.stay.arrival <= d < r.stay.departure && s.days[d].closed
    case MinStay => r.Nights() < first.minStay
    case MaxStay => 0 < first.maxStay < r.Nights()
    case ClosedToArrival => first.closedToArrival
    case ArrivalDay => first.arrivalMask != 0 && !Names(first.arrivalMask, Weekday(r.stay.arrival))
    case ClosedToDeparture => last.closedToDeparture
    case OverCapacity => 0 < s.maxOccupancy < r.adults + |r.children|
    case PetsNotAllowed => r.pets > 0 && !s.petsAllowed
  }

  /** The order the rules are tried in. */
  const TRIED: seq<Reason> :=
    [Closed, MinStay, MaxStay, ClosedToArrival, ArrivalDay, ClosedToDeparture, OverCapacity, PetsNotAllowed]

  ghost predicate FirstBroken(s: Snapshot, r: Request, k: int)
    requires Rated(s, r)
  {
    0 <= k < |TRIED| && Breaks(s, r, TRIED[k]) && forall j | 0 <= j < k :: !Breaks(s, r, TRIED[j])
  }

  lemma StayRulesFollow(s: Snapshot, r: Request, days: seq<RateDay>)
    requires Rated(s, r) && |days| == r.Nights()
    requires forall i | 0 <= i < |days| :: days[i] == s.days[r.stay.arrival + i]
    ensures match ValidateStay(days, r.stay.arrival)
            case None => forall k | 0 <= k < 6 :: !Breaks(s, r, TRIED[k])
            case Some(reason) => exists k | 0 <= k < 6 :: TRIED[k] == reason && FirstBroken(s, r, k)
  {
    MaskNames(days[0].arrivalMask, r.stay.arrival);
    FullMaskNames(days[0].arrivalMask, r.stay.arrival);
    ClosedNight(s, r, days);
    assert days[|days| - 1] == s.days[r.stay.arrival + (|days| - 1)];
    var broken := ValidateStay(days, r.stay.arrival);
    if broken.Some? {
      var k := if broken == Some(Closed) then 0 else if broken == Some(MinStay) then 1
               else if broken == Some(MaxStay) then 2 else if broken == Some(ClosedToArrival) then 3
               else if broken == Some(ArrivalDay) then 4 else 5;
      assert FirstBroken(s, r, k) && TRIED[k] == broken.value;
    }
  }

  lemma ClosedNight(s: Snapshot, r: Request, days: seq<RateDay>)
    requires Rated(s, r) && |days| == r.Nights()
    requires forall i | 0 <= i < |days| :: days[i] == s.days[r.stay.arrival + i]
    ensures Breaks(s, r, Closed) <==> exists i | 0 <= i < |days| :: days[i].closed
  {
    if d :| d in s.days && r.stay.arrival <= d < r.stay.departure && s.days[d].closed {
      assert days[d - r.stay.arrival].closed;
    }
    if i :| 0 <= i < |days| && days[i].closed {
      assert s.days[r.stay.arrival + i].closed;
    }
  }

  lemma FullMaskNames(mask: int, day: int)
    ensures mask == 127 ==> MaskHas(mask, day)
  {
    var on := [true, true, true, true, true, true, true];
    MaskHasItsWeekdays(on, 0, day);
  }

  /** Heads are counted once each, whatever their ages. */
  lemma HeadsAre(s: Snapshot, r: Request)
    ensures PartyOf(s, r).adults + |PartyOf(s, r).children| == r.adults + |r.children|
  {
    EveryoneIsCounted(Sorting.StableSort(s.ageBands, BandLeq), r.adults, r.children);
  }

  lemma AdmittedWhen(s: Snapshot, r: Request)
    requires Rated(s, r)
    ensures match Admit(s, r)
            case Ok(_) => forall k | 0 <= k < |TRIED| :: !Breaks(s, r, TRIED[k])
            case Err(error) =>
              exists k | 0 <= k < |TRIED| :: error == NotSellable(TRIED[k]) && FirstBroken(s, r, k)
  {
    var days := StayDays(s.days, r.stay.arrival, r.Nights()).value;
    StayRulesFollow(s, r, days);
    HeadsAre(s, r);
    if ValidateStay(days, r.stay.arrival) == None {
      if Breaks(s, r, OverCapacity) {
        assert TRIED[6] == OverCapacity && FirstBroken(s, r, 6);
      } else if Breaks(s, r, PetsNotAllowed) {
        assert TRIED[7] == PetsNotAllowed && FirstBroken(s, r, 7);
      }
    }
  }

  lemma OneIsFirst(s: Snapshot, r: Request, j: int, k: int)
    requires Rated(s, r) && FirstBroken(s, r, j) && FirstBroken(s, r, k)
    ensures j == k
  {
  }

  /** A stay with a rate for every night is refused for a reason exactly when that rule is
      broken and no rule tried before it is; it is priced exactly when none is and the
      plan's VAT code is known. */
  lemma RefusedExactlyWhen(s: Snapshot, r: Request, k: int)
    requires Rated(s, r) && 0 <= k < |TRIED|
    ensures Price(s, r) == Err(NotSellable(TRIED[k])) <==> FirstBroken(s, r, k)
    ensures Price(s, r).Ok? <==>
              s.plan.vatCode in s.vatCodes && forall j | 0 <= j < |TRIED| :: !Breaks(s, r, TRIED[j])
  {
    AdmittedWhen(s, r);
    if Admit(s, r).Ok? {
      var (days, party) := Admit(s, r).value;
      ComposeBalances(s, r, days, party);
      KnownCode(Compose(s, r, days, party).lines, s.vatCodes, s.plan.vatCode);
    } else {
      var j :| 0 <= j < |TRIED| && Admit(s, r).error == NotSellable(TRIED[j]) && FirstBroken(s, r, j);
      if FirstBroken(s, r, k) {
        OneIsFirst(s, r, j, k);
      }
    }
  }

  lemma {:induction false} KnownCode(lines: seq<Line>, codes: map<string, VATCode>, code: string)
    requires AllAt(lines, code) && lines != []
    ensures ApplyVAT(lines, codes).Ok? <==> code in codes
    ensures ApplyVAT(lines, codes).Err? ==> ApplyVAT(lines, codes).error == NoVATCode(code)
  {
    if |lines| > 1 {
      KnownCode(lines[..|lines| - 1], codes, code);
    } else {
      assert lines[..0] == [];
    }
  }

  /** A stay of no nights is too short, and one with a night without a rate is refused at
      the first such night. */
  lemma UnratedExactlyWhen(s: Snapshot, r: Request, day: int)
    ensures r.Nights() <= 0 ==> Price(s, r) == Err(NotSellable(MinStay))
    ensures Price(s, r) == Err(NoRate(day)) <==>
              && r.stay.arrival <= day < r.stay.departure && day !in s.days
              && forall d | r.stay.arrival <= d < day :: d in s.days
  {
  }
}
