/** The engine as the program runs it: loops that append lines and keep running
    sums, each proved to compute the function that specifies it. */
module PricingEngine {
  import opened Options
  import opened Pricing
  import opened PricingBalance
  import Money
  import Sorting

  lemma {:induction false} RunStagesAppends(run: Running, a: seq<Stage>, b: seq<Stage>, code: string)
    ensures RunStages(run, a + b, code) == RunStages(RunStages(run, a, code), b, code)
  {
    if b == [] {
      assert a + b == a;
    } else {
      var n := |b| - 1;
      RunStagesAppends(run, a, b[..n], code);
      assert (a + b)[..|a + b| - 1] == a + b[..n];
    }
  }

  lemma RunSingle(run: Running, stage: Stage, code: string)
    ensures RunStages(run, [stage], code) == RunStage(run, stage, code)
  {
    assert [stage][..0] == [];
    assert RunStages(run, [], code) == run;
  }

  lemma RunStageAt(run: Running, stages: seq<Stage>, k: nat, code: string)
    requires k < |stages|
    ensures RunStages(run, stages[..k + 1], code) == RunStage(RunStages(run, stages[..k], code), stages[k], code)
  {
    assert stages[..k + 1][..k] == stages[..k];
  }

  method ClassifyParty(s: Snapshot, r: Request) returns (party: Party)
    ensures party == PartyOf(s, r)
  {
    var bands := Sorting.StableSort(s.ageBands, BandLeq);
    var adults, children := r.adults, [];
    for c := 0 to |r.children|
      invariant Party(adults, children) == Classify(bands, r.adults, r.children[..c])
    {
      var age := r.children[c];
      var matched := false;
      ghost var before := children;
      var b := 0;
      while b < |bands| && !matched
        invariant 0 <= b <= |bands|
        invariant !matched ==> children == before && BandFor(bands, age) == BandFor(bands[b..], age)
        invariant matched ==> BandFor(bands, age).Some? && children == before + [BandFor(bands, age).value]
        decreases |bands| - b, !matched
      {
        if bands[b].ageFrom <= age <= bands[b].ageTo {
          assert BandFor(bands[b..], age) == Some(bands[b]);
          children := children + [bands[b]];
          matched := true;
        } else {
          assert bands[b..][1..] == bands[b + 1..];
          b := b + 1;
        }
      }
      if !matched {
        assert bands[b..] == [];
        adults := adults + 1;
      }
      assert r.children[..c + 1][..c] == r.children[..c];
      assert r.children[..c + 1][c] == age;
    }
    assert r.children[..|r.children|] == r.children;
    party := Party(adults, children);
  }

  method SumGross(lines: seq<Line>) returns (total: int)
    ensures total == GrossOf(lines)
  {
    total := 0;
    for i := 0 to |lines|
      invariant total == GrossOf(lines[..i])
    {
      total := total + lines[i].grossMinor;
      assert lines[..i + 1][..i] == lines[..i];
    }
    assert lines[..|lines|] == lines;
  }

  method ApplyAdjusters(q: Draft, s: Snapshot, r: Request, start: int)
    returns (out: Draft, subtotal: int)
    ensures Running(out, subtotal)
         == RunStages(Running(q, start), AdjusterStages(OrderedAdjusters(s), s.plan, r), s.plan.vatCode)
  {
    var adjusters := OrderedAdjusters(s);
    var nights := r.Nights();
    var vat := s.plan.vatCode;
    out, subtotal := q, start;
    ghost var stages := AdjusterStages(adjusters, s.plan, r);
    for i := 0 to |adjusters|
      invariant Running(out, subtotal) == RunStages(Running(q, start), stages[..i], vat)
    {
      var a := adjusters[i];
      RunStageAt(Running(q, start), stages, i, vat);
      if !Applies(a, r) {
        continue;
      }
      var delta := AdjusterDelta(a.change, subtotal, nights);
      var after := subtotal + delta;
      var clamped := Clamp(after, s.plan, nights);
      if clamped != after {
        delta := clamped - subtotal;
        after := clamped;
      }
      if delta == 0 {
        continue;
      }
      out := Emit(out, AdjusterLine, delta, vat);
      subtotal := after;
    }
    assert stages[..|adjusters|] == stages;
  }

  method SplitVAT(lines: seq<Line>, codes: map<string, VATCode>) returns (res: Result<seq<Line>>)
    ensures res == ApplyVAT(lines, codes)
  {
    var out := lines;
    for i := 0 to |lines|
      invariant |out| == |lines| && forall j | i <= j < |lines| :: out[j] == lines[j]
      invariant ApplyVAT(lines[..i], codes) == Ok(out[..i])
    {
      var code := out[i].vatCode;
      assert lines[..i + 1][..i] == lines[..i];
      if code !in codes {
        VATErrorPropagates(lines, i + 1, codes);
        return Err(NoVATCode(code));
      }
      ghost var done := out[..i];
      out := out[i := WithVAT(out[i], codes[code])];
      assert out[..i + 1] == done + [WithVAT(lines[i], codes[code])];
    }
    assert lines[..|lines|] == lines && out[..|lines|] == out;
    res := Ok(out);
  }

  lemma {:induction false} VATErrorPropagates(lines: seq<Line>, k: nat, codes: map<string, VATCode>)
    requires k <= |lines| && ApplyVAT(lines[..k], codes).Err?
    ensures ApplyVAT(lines, codes) == ApplyVAT(lines[..k], codes)
    decreases |lines|
  {
    if k == |lines| {
      assert lines[..k] == lines;
    } else {
      var n := |lines| - 1;
      assert lines[..n][..k] == lines[..k];
      VATErrorPropagates(lines[..n], k, codes);
    }
  }

  method SumTotals(lines: seq<Line>, currency: string) returns (t: Totals)
    ensures t == TotalsOf(lines, currency)
  {
    t := Totals(0, 0, 0, currency, map[]);
    for i := 0 to |lines|
      invariant t == TotalsOf(lines[..i], currency)
    {
      var l := lines[i];
      var sofar := if l.vatRateBP in t.byRate then t.byRate[l.vatRateBP] else 0;
      t := Totals(t.grossMinor + l.grossMinor, t.netMinor + l.netMinor, t.vatMinor + l.vatMinor,
                  currency, t.byRate[l.vatRateBP := sofar + l.vatMinor]);
      assert lines[..i + 1][..i] == lines[..i];
    }
    assert lines[..|lines|] == lines;
  }

  method PriceNights(s: Snapshot, r: Request, days: seq<RateDay>, party: Party)
    returns (lines: seq<Line>, accommodation: int)
    ensures lines == NightLines(days, r.stay.arrival, party, r.pets, r.vehicles, s.plan.vatCode)
    ensures accommodation == SumNights(days, party, r.pets, r.vehicles)
  {
    lines, accommodation := [], 0;
    for i := 0 to |days|
      invariant lines == NightLines(days[..i], r.stay.arrival, party, r.pets, r.vehicles, s.plan.vatCode)
      invariant accommodation == SumNights(days[..i], party, r.pets, r.vehicles)
    {
      var d := days[i];
      var night := d.baseMinor;
      var extraAdults := party.adults - d.includedAdults;
      if extraAdults > 0 {
        night := night + d.adultExtraMinor * extraAdults;
      }
      ghost var before := night;
      for c := 0 to |party.children|
        invariant night == before + SumBands(party.children[..c])
      {
        night := night + party.children[c].pricePerNightMinor;
        assert party.children[..c + 1][..c] == party.children[..c];
      }
      assert party.children[..|party.children|] == party.children;
      if r.pets > 0 {
        night := night + d.petMinor * r.pets;
      }
      if r.vehicles > 0 {
        night := night + d.vehicleMinor * r.vehicles;
      }
      lines := lines + [NewLine(i + 1, Accommodation, Some(r.stay.arrival + i), night, night, s.plan.vatCode)];
      accommodation := accommodation + night;
      assert days[..i + 1][..i] == days[..i];
    }
    assert days[..|days|] == days;
  }

  /** A draft that a stage can go on from: it is the run's, and its lines add up to
      the running subtotal. */
  ghost predicate InStep(draft: Draft, run: Running, code: string) {
    draft == run.draft && Balanced(draft, code) && GrossOf(draft.lines) == run.subtotal
  }

  /** A line is written only when money moves. */
  method Advance(draft: Draft, effect: int, kind: Kind, code: string, ghost run: Running, ghost stage: Stage)
    returns (q: Draft)
    requires InStep(draft, run, code)
    requires kind == stage.kind && stage.next(run.subtotal) == run.subtotal + effect
    ensures InStep(q, RunStage(run, stage, code), code)
  {
    StageConserves(run, stage, code);
    q := draft;
    if effect != 0 {
      q := Emit(q, kind, effect, code);
    }
  }

  method LengthOfStay(s: Snapshot, r: Request, run: Running) returns (q: Draft)
    requires InStep(run.draft, run, s.plan.vatCode)
    ensures InStep(q, RunStage(run, LOSStage(s.los, r.Nights()), s.plan.vatCode), s.plan.vatCode)
  {
    var d := LOSDelta(s.los, r.Nights(), run.subtotal);
    q := Advance(run.draft, d, LOSDiscount, s.plan.vatCode, run, LOSStage(s.los, r.Nights()));
  }

  /** The discount is on what the lines so far add up to. */
  method Campaign(s: Snapshot, draft: Draft, ghost run: Running) returns (q: Draft)
    requires InStep(draft, run, s.plan.vatCode)
    ensures InStep(q, RunStage(run, CampaignStage(s.campaign), s.plan.vatCode), s.plan.vatCode)
  {
    var d := 0;
    if s.campaign.Some? {
      var subtotal := SumGross(draft.lines);
      d := CampaignDelta(s.campaign, subtotal);
    }
    q := Advance(draft, d, CampaignLine, s.plan.vatCode, run, CampaignStage(s.campaign));
  }

  method CapAtZero(s: Snapshot, draft: Draft, ghost run: Running) returns (q: Draft)
    requires InStep(draft, run, s.plan.vatCode)
    ensures InStep(q, RunStage(run, FloorStage(), s.plan.vatCode), s.plan.vatCode)
  {
    var total := SumGross(draft.lines);
    q := Advance(draft, if total < 0 then -total else 0, Rounding, s.plan.vatCode, run, FloorStage());
  }

  /** Length of stay, campaign and the cap at zero, on what the lines sum to. */
  method Discount(s: Snapshot, r: Request, run: Running) returns (q: Draft)
    requires InStep(run.draft, run, s.plan.vatCode)
    ensures q == RunStages(run, [LOSStage(s.los, r.Nights()), CampaignStage(s.campaign), FloorStage()],
                           s.plan.vatCode).draft
  {
    ghost var code := s.plan.vatCode;
    RunThree(run, LOSStage(s.los, r.Nights()), CampaignStage(s.campaign), FloorStage(), code);
    q := LengthOfStay(s, r, run);
    ghost var stayed := RunStage(run, LOSStage(s.los, r.Nights()), code);
    q := Campaign(s, q, stayed);
    q := CapAtZero(s, q, RunStage(stayed, CampaignStage(s.campaign), code));
  }

  lemma RunThree(run: Running, a: Stage, b: Stage, c: Stage, code: string)
    ensures RunStages(run, [a, b, c], code) == RunStage(RunStage(RunStage(run, a, code), b, code), c, code)
  {
    assert [a, b, c] == [a] + [b] + [c];
    RunStagesAppends(run, [a] + [b], [c], code);
    RunStagesAppends(run, [a], [b], code);
    RunSingle(run, a, code);
    RunSingle(RunStage(run, a, code), b, code);
    RunSingle(RunStage(RunStage(run, a, code), b, code), c, code);
  }

  /** Price, whole: the same quote or the same refusal as the specification. */
  method PriceStay(s: Snapshot, r: Request) returns (res: Result<Quote>)
    ensures res == Price(s, r)
  {
    var nights := r.Nights();
    if nights <= 0 {
      return Err(NotSellable(MinStay));
    }
    var found := StayDays(s.days, r.stay.arrival, nights);
    if found.Err? {
      return Err(found.error);
    }
    var days := found.value;
    var broken := ValidateStay(days, r.stay.arrival);
    if broken.Some? {
      return Err(NotSellable(broken.value));
    }
    var party := ClassifyParty(s, r);
    if s.maxOccupancy > 0 && party.adults + |party.children| > s.maxOccupancy {
      return Err(NotSellable(OverCapacity));
    }
    if r.pets > 0 && !s.petsAllowed {
      return Err(NotSellable(PetsNotAllowed));
    }

    var q := ComposeStay(s, r, days, party);
    var lines := SplitVAT(q.lines, s.vatCodes);
    if lines.Err? {
      return Err(lines.error);
    }
    var totals := SumTotals(lines.value, s.plan.currency);
    res := Ok(Quote(nights, lines.value, q.explain, totals));
  }

  method Derive(s: Snapshot, opening: Running) returns (run: Running)
    ensures run == RunStage(opening, DeriveStage(s.plan), s.plan.vatCode)
  {
    run := opening;
    if s.plan.derive != NotDerived {
      var delta := DeriveDelta(s.plan, opening.subtotal);
      if delta != 0 {
        run := Running(Emit(opening.draft, DerivedPlan, delta, s.plan.vatCode), opening.subtotal + delta);
      }
    }
  }

  method ComposeStay(s: Snapshot, r: Request, days: seq<RateDay>, party: Party) returns (q: Draft)
    ensures q == Compose(s, r, days, party)
  {
    var lines, accommodation := PriceNights(s, r, days, party);
    var opening := Running(Draft(lines, [Step(Accommodation, accommodation)]), accommodation);
    OpeningBalances(s, r, days, party);

    var derived := Derive(s, opening);
    StageConserves(opening, DeriveStage(s.plan), s.plan.vatCode);

    var adjusted, subtotal := ApplyAdjusters(derived.draft, s, r, derived.subtotal);
    StagesConserve(derived, AdjusterStages(OrderedAdjusters(s), s.plan, r), s.plan.vatCode);

    q := Discount(s, r, Running(adjusted, subtotal));
    StagesInThree(s, r, opening);
  }

  lemma StagesInThree(s: Snapshot, r: Request, run: Running)
    ensures RunStages(run, Stages(s, r), s.plan.vatCode)
         == RunStages(RunStages(RunStage(run, DeriveStage(s.plan), s.plan.vatCode),
                                AdjusterStages(OrderedAdjusters(s), s.plan, r), s.plan.vatCode),
                      [LOSStage(s.los, r.Nights()), CampaignStage(s.campaign), FloorStage()], s.plan.vatCode)
  {
    var adjusters := AdjusterStages(OrderedAdjusters(s), s.plan, r);
    RunSingle(run, DeriveStage(s.plan), s.plan.vatCode);
    RunStagesAppends(run, [DeriveStage(s.plan)], adjusters, s.plan.vatCode);
    RunStagesAppends(run, [DeriveStage(s.plan)] + adjusters,
                     [LOSStage(s.los, r.Nights()), CampaignStage(s.campaign), FloorStage()], s.plan.vatCode);
  }
}
