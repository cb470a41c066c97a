/** Every quote balances: lines, trace, totals and VAT all tell one story. */
module PricingBalance {
  import opened Options
  import opened Pricing
  import Money
  import Sorting
  import Int64
  import opened Sums

  ghost predicate Numbered(lines: seq<Line>) {
    forall i | 0 <= i < |lines| :: lines[i].number == i + 1
  }

  ghost predicate AllAt(lines: seq<Line>, code: string) {
    forall i | 0 <= i < |lines| :: lines[i].vatCode == code
  }

  ghost predicate Balanced(q: Draft, code: string) {
    Numbered(q.lines) && AllAt(q.lines, code) && GrossOf(q.lines) == EffectsOf(q.explain)
  }

  lemma EmitBalances(q: Draft, kind: Kind, effect: int, code: string)
    requires Balanced(q, code)
    ensures var e := Emit(q, kind, effect, code);
            Balanced(e, code) && q.lines <= e.lines && GrossOf(e.lines) == GrossOf(q.lines) + effect
  {
    var e := Emit(q, kind, effect, code);
    assert e.lines[..|q.lines|] == q.lines;
    assert e.explain[..|q.explain|] == q.explain;
  }

  lemma {:induction false} NightLinesBalance(days: seq<RateDay>, arrival: int, party: Party,
                                             pets: int, vehicles: int, code: string)
    ensures var lines := NightLines(days, arrival, party, pets, vehicles, code);
            && |lines| == |days| && Numbered(lines) && AllAt(lines, code)
            && GrossOf(lines) == SumNights(days, party, pets, vehicles)
  {
    if days != [] {
      var n := |days| - 1;
      NightLinesBalance(days[..n], arrival, party, pets, vehicles, code);
      var lines := NightLines(days, arrival, party, pets, vehicles, code);
      assert lines[..n] == NightLines(days[..n], arrival, party, pets, vehicles, code);
    }
  }

  /** One stage's line, or none. */
  lemma EffectBalances(q: Draft, kind: Kind, effect: int, code: string)
    requires Balanced(q, code)
    ensures var e := EmitUnlessZero(q, kind, effect, code);
            Balanced(e, code) && |q.lines| <= |e.lines| && GrossOf(e.lines) == GrossOf(q.lines) + effect
  {
    if effect != 0 {
      EmitBalances(q, kind, effect, code);
    }
  }

  lemma StageConserves(run: Running, stage: Stage, code: string)
    requires Balanced(run.draft, code)
    ensures var out := RunStage(run, stage, code);
            && Balanced(out.draft, code)
            && |run.draft.lines| <= |out.draft.lines|
            && GrossOf(out.draft.lines) - GrossOf(run.draft.lines) == out.subtotal - run.subtotal
  {
    var effect := stage.next(run.subtotal) - run.subtotal;
    var after := EmitUnlessZero(run.draft, stage.kind, effect, code);
    EffectBalances(run.draft, stage.kind, effect, code);
    assert RunStage(run, stage, code) == Running(after, run.subtotal + effect);
  }

  /** Running stages conserves: the subtotal moves by exactly the lines emitted. */
  lemma {:induction false} StagesConserve(run: Running, stages: seq<Stage>, code: string)
    requires Balanced(run.draft, code)
    ensures var out := RunStages(run, stages, code);
            && Balanced(out.draft, code)
            && |run.draft.lines| <= |out.draft.lines|
            && GrossOf(out.draft.lines) - GrossOf(run.draft.lines) == out.subtotal - run.subtotal
  {
    if stages != [] {
      var n := |stages| - 1;
      StagesConserve(run, stages[..n], code);
      StageConserves(RunStages(run, stages[..n], code), stages[n], code);
    }
  }

  /** What the stages do to an amount, as a plain function of it. */
  function Through(x: int, stages: seq<Stage>): int {
    if stages == [] then x else stages[|stages| - 1].next(Through(x, stages[..|stages| - 1]))
  }

  lemma {:induction false} RunStagesSubtotal(run: Running, stages: seq<Stage>, code: string)
    ensures RunStages(run, stages, code).subtotal == Through(run.subtotal, stages)
  {
    if stages != [] {
      RunStagesSubtotal(run, stages[..|stages| - 1], code);
    }
  }

  lemma OpeningBalances(s: Snapshot, r: Request, days: seq<RateDay>, party: Party)
    ensures var run := Opening(s, r, days, party);
            && Balanced(run.draft, s.plan.vatCode) && |run.draft.lines| == |days|
            && GrossOf(run.draft.lines) == run.subtotal == SumNights(days, party, r.pets, r.vehicles)
  {
    NightLinesBalance(days, r.stay.arrival, party, r.pets, r.vehicles, s.plan.vatCode);
    assert Opening(s, r, days, party).draft.explain[..0] == [];
  }

  /** The emitted breakdown and the plain arithmetic agree, and the last stage
      leaves nothing below zero. */
  lemma ComposeBalances(s: Snapshot, r: Request, days: seq<RateDay>, party: Party)
    ensures var q := Compose(s, r, days, party);
            && Balanced(q, s.plan.vatCode)
            && |q.lines| >= |days|
            && GrossOf(q.lines) == Through(SumNights(days, party, r.pets, r.vehicles), Stages(s, r)) >= 0
  {
    var opening, stages := Opening(s, r, days, party), Stages(s, r);
    OpeningBalances(s, r, days, party);
    StagesConserve(opening, stages, s.plan.vatCode);
    RunStagesSubtotal(opening, stages, s.plan.vatCode);
    EndsAtLeastZero(s, r, opening.subtotal);
  }

  lemma EndsAtLeastZero(s: Snapshot, r: Request, x: int)
    ensures Through(x, Stages(s, r)) >= 0
  {
    assert Stages(s, r)[|Stages(s, r)| - 1] == FloorStage();
  }

  // ---- sums over the finished lines ---------------------------------------------------

  lemma {:induction false} SumsSplit(lines: seq<Line>)
    requires forall i | 0 <= i < |lines| :: lines[i].netMinor + lines[i].vatMinor == lines[i].grossMinor
    ensures NetOf(lines) + VATOf(lines) == GrossOf(lines)
  {
    if lines != [] {
      SumsSplit(lines[..|lines| - 1]);
    }
  }

  lemma {:induction false} GrossDependsOnGross(a: seq<Line>, b: seq<Line>)
    requires |a| == |b| && forall i | 0 <= i < |a| :: a[i].grossMinor == b[i].grossMinor
    ensures GrossOf(a) == GrossOf(b)
  {
    if a != [] {
      GrossDependsOnGross(a[..|a| - 1], b[..|b| - 1]);
    }
  }

  /** The VAT of the lines at one rate. */
  function VATAt(lines: seq<Line>, rate: int): int {
    if lines == [] then 0
    else
      var n := |lines| - 1;
      VATAt(lines[..n], rate) + if lines[n].vatRateBP == rate then lines[n].vatMinor else 0
  }

  /** The per-rate map holds each rate's own VAT and nothing is lost between rates. */
  lemma {:induction false} ByRateIsAPartition(lines: seq<Line>)
    ensures SumMap(ByRate(lines)) == VATOf(lines)
  {
    if lines != [] {
      var n := |lines| - 1;
      ByRateIsAPartition(lines[..n]);
      var before := ByRate(lines[..n]);
      var rate := lines[n].vatRateBP;
      SumMapUpdate(before, rate, (if rate in before then before[rate] else 0) + lines[n].vatMinor);
    }
  }

  lemma {:induction false} ByRateHolds(lines: seq<Line>, rate: int)
    ensures VATAt(lines, rate) == if rate in ByRate(lines) then ByRate(lines)[rate] else 0
  {
    if lines != [] {
      ByRateHolds(lines[..|lines| - 1], rate);
    }
  }

  /** The line amounts, the trace and the total agree; every line and the whole
      split into net and VAT without loss; the per-rate map adds up to the total
      VAT; lines are numbered 1..n; nobody is paid to stay. */
  ghost predicate BalancesThreeWays(q: Quote) {
    && GrossOf(q.lines) == EffectsOf(q.explain) == q.totals.grossMinor
    && q.totals.grossMinor >= 0
    && (forall i | 0 <= i < |q.lines| ::
          q.lines[i].netMinor + q.lines[i].vatMinor == q.lines[i].grossMinor)
    && q.totals.netMinor + q.totals.vatMinor == q.totals.grossMinor
    && q.totals.netMinor == NetOf(q.lines) && q.totals.vatMinor == VATOf(q.lines)
    && SumMap(q.totals.byRate) == q.totals.vatMinor
    && (forall rate | rate in q.totals.byRate :: q.totals.byRate[rate] == VATAt(q.lines, rate))
    && Numbered(q.lines)
  }

  lemma FinishBalances(s: Snapshot, nights: int, draft: Draft)
    requires Balanced(draft, s.plan.vatCode) && GrossOf(draft.lines) >= 0
    requires Finish(s, nights, draft).Ok?
    ensures BalancesThreeWays(Finish(s, nights, draft).value)
    ensures Finish(s, nights, draft).value.totals.grossMinor == GrossOf(draft.lines)
    ensures |Finish(s, nights, draft).value.lines| == |draft.lines|
  {
    var q := Finish(s, nights, draft).value;
    VATKeepsGross(draft.lines, s.vatCodes);
    SumsSplit(q.lines);
    ByRateIsAPartition(q.lines);
    forall rate | rate in q.totals.byRate ensures q.totals.byRate[rate] == VATAt(q.lines, rate) {
      ByRateHolds(q.lines, rate);
    }
  }

  /** Whatever is priced balances. */
  lemma EveryQuoteBalances(s: Snapshot, r: Request)
    requires Price(s, r).Ok?
    ensures BalancesThreeWays(Price(s, r).value)
    ensures |Price(s, r).value.lines| >= r.Nights() > 0
  {
    var (days, party) := Admit(s, r).value;
    ComposeBalances(s, r, days, party);
    FinishBalances(s, r.Nights(), Compose(s, r, days, party));
  }

  lemma VATKeepsGross(lines: seq<Line>, codes: map<string, VATCode>)
    requires ApplyVAT(lines, codes).Ok?
    ensures GrossOf(ApplyVAT(lines, codes).value) == GrossOf(lines)
    ensures Numbered(lines) ==> Numbered(ApplyVAT(lines, codes).value)
    ensures forall i | 0 <= i < |lines| ::
              var l := ApplyVAT(lines, codes).value[i]; l.netMinor + l.vatMinor == l.grossMinor
  {
    GrossDependsOnGross(ApplyVAT(lines, codes).value, lines);
  }

  /** The total a guest is charged is the pipeline applied to the nights. */
  lemma TotalIsPipeline(s: Snapshot, r: Request)
    requires Price(s, r).Ok?
    ensures Admit(s, r).Ok?
    ensures Price(s, r).value.totals.grossMinor
         == Through(SumNights(Admit(s, r).value.0, Admit(s, r).value.1, r.pets, r.vehicles), Stages(s, r))
  {
    var (days, party) := Admit(s, r).value;
    ComposeBalances(s, r, days, party);
    FinishBalances(s, r.Nights(), Compose(s, r, days, party));
  }

  // ---- VAT rounding ---------------------------------------------------------------------

  /** How far a net and VAT pair is from the exact split, in units of 1/20000 of
      an öre per basis point. */
  function VATError(rateBP: int, net: int, vat: int): int {
    2 * (10000 * vat - rateBP * net)
  }

  lemma NetFromGrossBounds(gross: int, rateBP: BasisPoints)
    ensures var net := NetFromGross(gross, rateBP);
            Int64.Abs(VATError(rateBP, net, gross - net)) <= 10000 + rateBP
  {
    if rateBP != 0 {
      var d: int := 10000 + rateBP;
      var net := NetFromGross(gross, rateBP);
      Money.DivRoundBounds(gross * 10000, d, 0);
      assert net * d == 10000 * net + rateBP * net;
    }
  }

  /** The net keeps the sign of the gross, never exceeds it in size, and a refund
      is split as the mirror image of the charge. */
  lemma NetFromGrossShape(gross: int, rateBP: BasisPoints)
    ensures gross >= 0 ==> 0 <= NetFromGross(gross, rateBP) <= gross
    ensures gross <= 0 ==> gross <= NetFromGross(gross, rateBP) <= 0
    ensures NetFromGross(-gross, rateBP) == -NetFromGross(gross, rateBP)
  {
    if rateBP != 0 {
      var d: int := 10000 + rateBP;
      var n := gross * 10000;
      assert -gross * 10000 == -n;
      Money.DivRoundIsOdd(n, d);
      NetBetween(gross, rateBP, d);
    }
  }

  lemma NetBetween(gross: int, rateBP: int, d: int)
    requires rateBP >= 0 && d == 10000 + rateBP
    ensures gross >= 0 ==> 0 <= Money.DivRound(gross * 10000, d) <= gross
    ensures gross <= 0 ==> gross <= Money.DivRound(gross * 10000, d) <= 0
  {
    Money.DivRoundBounds(gross * 10000, d, 0);
    Money.DivRoundBounds(gross * 10000, d, gross);
    assert gross * d == 10000 * gross + rateBP * gross;
    Money.ProductSign(rateBP, gross);
  }

  lemma {:induction false} VATErrorAdds(lines: seq<Line>, rateBP: BasisPoints)
    requires forall i | 0 <= i < |lines| ::
               Int64.Abs(VATError(rateBP, lines[i].netMinor, lines[i].vatMinor)) <= 10000 + rateBP
    ensures Int64.Abs(VATError(rateBP, NetOf(lines), VATOf(lines))) <= |lines| * (10000 + rateBP)
  {
    if lines != [] {
      var n := |lines| - 1;
      VATErrorAdds(lines[..n], rateBP);
      ErrorStep(rateBP, n, NetOf(lines[..n]), VATOf(lines[..n]), lines[n].netMinor, lines[n].vatMinor);
    }
  }

  lemma ErrorStep(rateBP: int, n: nat, net: int, vat: int, lineNet: int, lineVAT: int)
    requires Int64.Abs(VATError(rateBP, net, vat)) <= n * (10000 + rateBP)
    requires Int64.Abs(VATError(rateBP, lineNet, lineVAT)) <= 10000 + rateBP
    ensures Int64.Abs(VATError(rateBP, net + lineNet, vat + lineVAT)) <= (n + 1) * (10000 + rateBP)
  {
    Int64.Distribute(net, lineNet, rateBP);
    Int64.Distribute(n, 1, 10000 + rateBP);
  }

  /** Rounding once per line costs at most half a unit per line, on each line and
      on the whole quote. */
  ghost predicate VATBounded(q: Quote, rate: int) {
    && (forall i | 0 <= i < |q.lines| ::
          && q.lines[i].vatRateBP == rate
          && Int64.Abs(VATError(rate, q.lines[i].netMinor, q.lines[i].vatMinor)) <= 10000 + rate)
    && Int64.Abs(VATError(rate, q.totals.netMinor, q.totals.vatMinor)) <= |q.lines| * (10000 + rate)
  }

  lemma FinishBounded(s: Snapshot, nights: int, draft: Draft)
    requires AllAt(draft.lines, s.plan.vatCode) && draft.lines != []
    requires Finish(s, nights, draft).Ok?
    ensures s.plan.vatCode in s.vatCodes
    ensures VATBounded(Finish(s, nights, draft).value, s.vatCodes[s.plan.vatCode].rateBP)
  {
    var q := Finish(s, nights, draft).value;
    assert draft.lines[0].vatCode == s.plan.vatCode;
    var rate: int := s.vatCodes[s.plan.vatCode].rateBP;
    forall i | 0 <= i < |q.lines|
      ensures q.lines[i].vatRateBP == rate
      ensures Int64.Abs(VATError(rate, q.lines[i].netMinor, q.lines[i].vatMinor)) <= 10000 + rate
    {
      assert draft.lines[i].vatCode == s.plan.vatCode;
      NetFromGrossBounds(draft.lines[i].grossMinor, rate);
    }
    VATErrorAdds(q.lines, rate);
  }

  lemma EveryQuoteVATIsBounded(s: Snapshot, r: Request)
    requires Price(s, r).Ok?
    ensures s.plan.vatCode in s.vatCodes
    ensures VATBounded(Price(s, r).value, s.vatCodes[s.plan.vatCode].rateBP)
  {
    var (days, party) := Admit(s, r).value;
    ComposeBalances(s, r, days, party);
    FinishBounded(s, r.Nights(), Compose(s, r, days, party));
  }
}
