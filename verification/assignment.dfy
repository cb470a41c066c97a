/** Which units could host a stay, and which of them is least wasteful. */
module Assignment {
  import opened Dates
  import opened Options
  import opened Inventory
  import Sorting

  const MAX_LOOKAHEAD: int := 14
  const GAP_WEIGHT: int := 100
  const SURPLUS_WEIGHT: int := 10

  datatype Query = Query(
    category: Id, stay: Stay, guests: int, pets: int, electricityAmp: int, accessible: bool)

  datatype Candidate = Candidate(
    unitId: Id, sortOrder: int, freeBefore: int, freeAfter: int,
    electricityAmp: int, maxOccupancy: int, accessible: bool, sanitary: bool, hasView: bool)

  datatype Need = Need(guests: int, electricityAmp: int, accessible: bool, sanitary: bool)

  // ---- scoring ---------------------------------------------------------------------------

  function Clamp(nights: int): (c: int)
    ensures 0 <= c <= MAX_LOOKAHEAD
  {
    if nights < 0 then 0 else if nights > MAX_LOOKAHEAD then MAX_LOOKAHEAD else nights
  }

  function Surplus(c: Candidate, r: Need): int {
    (if r.electricityAmp > 0 && c.electricityAmp > r.electricityAmp then c.electricityAmp - r.electricityAmp else 0)
    + (if c.maxOccupancy > r.guests then c.maxOccupancy - r.guests else 0)
    + (if c.accessible && !r.accessible then 5 else 0)
    + (if c.sanitary && !r.sanitary then 3 else 0)
    + (if c.hasView then 2 else 0)
  }

  function Cost(c: Candidate, r: Need): int {
    (Clamp(c.freeBefore) + Clamp(c.freeAfter)) * GAP_WEIGHT + Surplus(c, r) * SURPLUS_WEIGHT + c.sortOrder
  }

  /** Lower cost first, then the lower unit id. */
  predicate NoWorse(r: Need, a: Candidate, b: Candidate) {
    Cost(a, r) < Cost(b, r) || (Cost(a, r) == Cost(b, r) && a.unitId <= b.unitId)
  }

  function Order(candidates: seq<Candidate>, r: Need): seq<Candidate> {
    Sorting.StableSort(candidates, (a, b) => NoWorse(r, a, b))
  }

  ghost predicate DistinctUnits(candidates: seq<Candidate>) {
    forall i, j | 0 <= i < j < |candidates| :: candidates[i].unitId != candidates[j].unitId
  }

  ghost predicate IsBest(best: Candidate, candidates: seq<Candidate>, r: Need) {
    best in candidates && forall i | 0 <= i < |candidates| :: NoWorse(r, best, candidates[i])
  }

  /** One pass, keeping the best so far. */
  method Best(candidates: seq<Candidate>, r: Need) returns (best: Option<Candidate>)
    ensures candidates == [] <==> best.None?
    ensures best.Some? ==> IsBest(best.value, candidates, r)
  {
    best := None;
    for i := 0 to |candidates|
      invariant i == 0 <==> best.None?
      invariant best.Some? ==> IsBest(best.value, candidates[..i], r)
    {
      var c := candidates[i];
      if best.None? || Cost(c, r) < Cost(best.value, r)
         || (Cost(c, r) == Cost(best.value, r) && c.unitId < best.value.unitId) {
        best := Some(c);
      }
      assert candidates[..i + 1] == candidates[..i] + [c];
    }
    assert candidates[..|candidates|] == candidates;
  }

  ghost function Max(a: int, b: int): int {
    if a > b then a else b
  }

  /** a wastes no more than b on any account: idle nights, amperes and beds beyond the
      request, accessibility and plumbing nobody asked for, a view, the listing order. */
  ghost predicate NoMoreWasteful(r: Need, a: Candidate, b: Candidate) {
    && Clamp(a.freeBefore) + Clamp(a.freeAfter) <= Clamp(b.freeBefore) + Clamp(b.freeAfter)
    && (r.electricityAmp > 0 ==> a.electricityAmp <= Max(b.electricityAmp, r.electricityAmp))
    && a.maxOccupancy <= Max(b.maxOccupancy, r.guests)
    && (a.accessible && !r.accessible ==> b.accessible)
    && (a.sanitary && !r.sanitary ==> b.sanitary)
    && (a.hasView ==> b.hasView)
    && a.sortOrder <= b.sortOrder
  }

  /** The best is never beaten: a candidate as thrifty as it on every account is no
      thriftier on any, and has a higher unit id or is the best itself. */
  lemma BestIsNotBeaten(best: Candidate, candidates: seq<Candidate>, r: Need, a: Candidate)
    requires IsBest(best, candidates, r) && a in candidates && NoMoreWasteful(r, a, best)
    ensures NoMoreWasteful(r, best, a) && best.unitId <= a.unitId
  {
    var i :| 0 <= i < |candidates| && candidates[i] == a;
    assert NoWorse(r, best, candidates[i]);
    LessWasteIsLessSurplus(r, a, best);
  }

  lemma LessWasteIsLessSurplus(r: Need, a: Candidate, b: Candidate)
    requires NoMoreWasteful(r, a, b)
    ensures Surplus(a, r) <= Surplus(b, r)
    ensures Surplus(a, r) == Surplus(b, r) ==>
              && (r.electricityAmp > 0 ==> b.electricityAmp <= Max(a.electricityAmp, r.electricityAmp))
              && b.maxOccupancy <= Max(a.maxOccupancy, r.guests)
              && (b.accessible && !r.accessible ==> a.accessible)
              && (b.sanitary && !r.sanitary ==> a.sanitary)
              && (b.hasView ==> a.hasView)
  {
  }

  /** A plain candidate: nothing beyond what was asked, nothing idle beside the stay. */
  ghost predicate Plain(c: Candidate, r: Need) {
    && c.maxOccupancy == r.guests && c.electricityAmp == r.electricityAmp && c.freeBefore == 0 && c.freeAfter == 0
    && !c.accessible && !c.sanitary && !c.hasView
  }

  ghost predicate Preferred(a: Candidate, b: Candidate, r: Need) {
    IsBest(a, [a, b], r) && !IsBest(b, [a, b], r)
  }

  lemma PreferredIsCheaper(a: Candidate, b: Candidate, r: Need)
    requires a.unitId > b.unitId
    ensures Preferred(a, b, r) <==> Cost(a, r) < Cost(b, r)
  {
    assert [a, b][0] == a && [a, b][1] == b;
  }

  /** What spares are worth, in spare beds: an accessible pitch nobody needs is passed over
      for one with fewer than five beds too many and for no other; own plumbing is worth
      three and a view two. A spare that was asked for is none. Of two worth the same the
      lower unit goes first. */
  lemma AttributesAreWorthBeds(c: Candidate, r: Need, beds: nat, other: Id)
    requires Plain(c, r) && c.unitId < other
    ensures var roomy := c.(unitId := other, maxOccupancy := r.guests + beds);
            && (Preferred(roomy, c.(accessible := true), r) <==> !r.accessible && beds < 5)
            && (Preferred(roomy, c.(sanitary := true), r) <==> !r.sanitary && beds < 3)
            && (Preferred(roomy, c.(hasView := true), r) <==> beds < 2)
            && !Preferred(roomy, c, r)
  {
    var roomy := c.(unitId := other, maxOccupancy := r.guests + beds);
    PreferredIsCheaper(roomy, c.(accessible := true), r);
    PreferredIsCheaper(roomy, c.(sanitary := true), r);
    PreferredIsCheaper(roomy, c.(hasView := true), r);
    PreferredIsCheaper(roomy, c, r);
  }

  /** An ampere is worth one bed where power was asked for and nothing where not, an idle
      night ten up to a fortnight either side, and ten places in the listing one. */
  lemma MeasuresAreWorthBeds(c: Candidate, r: Need, beds: nat, amps: nat, nights: int, places: int, other: Id)
    requires Plain(c, r) && c.unitId < other
    ensures var roomy := c.(unitId := other, maxOccupancy := r.guests + beds);
            var idle := if nights < 0 then 0 else if nights < 14 then nights else 14;
            && (Preferred(roomy, c.(electricityAmp := r.electricityAmp + amps), r)
                <==> r.electricityAmp > 0 && beds < amps)
            && (Preferred(roomy, c.(freeBefore := nights), r) <==> beds < 10 * idle)
            && (Preferred(roomy, c.(freeAfter := nights), r) <==> beds < 10 * idle)
            && (Preferred(roomy, c.(sortOrder := c.sortOrder + places), r) <==> 10 * beds < places)
  {
    var roomy := c.(unitId := other, maxOccupancy := r.guests + beds);
    PreferredIsCheaper(roomy, c.(electricityAmp := r.electricityAmp + amps), r);
    PreferredIsCheaper(roomy, c.(freeBefore := nights), r);
    PreferredIsCheaper(roomy, c.(freeAfter := nights), r);
    PreferredIsCheaper(roomy, c.(sortOrder := c.sortOrder + places), r);
  }

  /** With one candidate per unit there is only one best, wherever it was listed. */
  lemma BestIsUnique(a: Candidate, b: Candidate, xs: seq<Candidate>, ys: seq<Candidate>, r: Need)
    requires multiset(xs) == multiset(ys) && DistinctUnits(xs)
    requires IsBest(a, xs, r) && IsBest(b, ys, r)
    ensures a == b
  {
    assert a in multiset(ys) && b in multiset(xs);
    var i :| 0 <= i < |xs| && xs[i] == a;
    var j :| 0 <= j < |xs| && xs[j] == b;
    var k :| 0 <= k < |ys| && ys[k] == a;
    assert NoWorse(r, a, xs[j]) && NoWorse(r, b, ys[k]);
  }

  lemma NoWorseIsTotal(r: Need)
    ensures Sorting.TotalPreorder((a: Candidate, b: Candidate) => NoWorse(r, a, b))
  {
  }

  lemma DistinctUnitsNeverTie(candidates: seq<Candidate>, r: Need)
    requires DistinctUnits(candidates)
    ensures Sorting.NoTies(multiset(candidates), (a, b) => NoWorse(r, a, b))
  {
    forall x, y | x in multiset(candidates) && y in multiset(candidates)
                  && NoWorse(r, x, y) && NoWorse(r, y, x)
      ensures x == y
    {
      var i :| 0 <= i < |candidates| && candidates[i] == x;
      var j :| 0 <= j < |candidates| && candidates[j] == y;
    }
  }

  /** Order rearranges, best first: its head is what Best returns, and neither
      depends on the order the rows came in. */
  lemma OrderLeadsWithBest(candidates: seq<Candidate>, r: Need)
    ensures multiset(Order(candidates, r)) == multiset(candidates)
    ensures |Order(candidates, r)| == |candidates|
    ensures Sorting.Sorted(Order(candidates, r), (a, b) => NoWorse(r, a, b))
    ensures candidates != [] ==> IsBest(Order(candidates, r)[0], candidates, r)
  {
    NoWorseIsTotal(r);
    Sorting.StableSortSorts(candidates, (a, b) => NoWorse(r, a, b));
    var ordered := Order(candidates, r);
    if candidates != [] {
      assert ordered[0] in multiset(ordered);
      forall i | 0 <= i < |candidates| ensures NoWorse(r, ordered[0], candidates[i]) {
        assert candidates[i] in multiset(ordered);
        var j :| 0 <= j < |ordered| && ordered[j] == candidates[i];
      }
    }
  }

  lemma OrderIgnoresInputOrder(xs: seq<Candidate>, ys: seq<Candidate>, r: Need)
    requires multiset(xs) == multiset(ys) && DistinctUnits(xs)
    ensures Order(xs, r) == Order(ys, r)
  {
    NoWorseIsTotal(r);
    DistinctUnitsNeverTie(xs, r);
    Sorting.SortIgnoresInputOrder(xs, ys, (a, b) => NoWorse(r, a, b));
  }

  // ---- the gaps beside the stay ----------------------------------------------------------------

  predicate Greatest(s: set<int>, x: int) {
    x in s && forall y | y in s :: y <= x
  }

  predicate Least(s: set<int>, x: int) {
    x in s && forall y | y in s :: x <= y
  }

  lemma {:induction false} ExtremesExist(s: set<int>, w: int)
    requires w in s
    ensures exists x :: Greatest(s, x)
    ensures exists x :: Least(s, x)
    decreases |s|
  {
    var rest := s - {w};
    assert forall y | y in s :: y == w || y in rest;
    if v :| v in rest {
      ExtremesExist(rest, v);
      var hi :| Greatest(rest, hi);
      var lo :| Least(rest, lo);
      assert Greatest(s, if w > hi then w else hi);
      assert Least(s, if w < lo then w else lo);
    } else {
      assert Greatest(s, w) && Least(s, w);
    }
  }

  function DeparturesBy(rows: Rows, unit: Id, day: int): set<int> {
    set i | i in rows && rows[i].unit == unit && Live(rows[i].state) && rows[i].stay.departure <= day
        :: rows[i].stay.departure
  }

  function ArrivalsFrom(rows: Rows, unit: Id, day: int): set<int> {
    set i | i in rows && rows[i].unit == unit && Live(rows[i].state) && rows[i].stay.arrival >= day
        :: rows[i].stay.arrival
  }

  /** coalesce(lower(stay) - max(upper(a.stay)), lookahead). */
  function FreeBefore(rows: Rows, unit: Id, arrival: int): int {
    var before := DeparturesBy(rows, unit, arrival);
    if exists x | x in before :: Greatest(before, x) then
      var last :| last in before && Greatest(before, last);
      arrival - last
    else MAX_LOOKAHEAD
  }

  /** coalesce(min(lower(a.stay)) - upper(stay), lookahead). */
  function FreeAfter(rows: Rows, unit: Id, departure: int): int {
    var after := ArrivalsFrom(rows, unit, departure);
    if exists x | x in after :: Least(after, x) then
      var next :| next in after && Least(after, next);
      next - departure
    else MAX_LOOKAHEAD
  }

  /** The run of idle nights ending just before the day, counted up to a cap. */
  function IdleBefore(rows: Rows, unit: Id, day: int, cap: nat): nat
    decreases cap
  {
    if cap == 0 || Taken(rows, unit, day - 1) then 0 else 1 + IdleBefore(rows, unit, day - 1, cap - 1)
  }

  function IdleAfter(rows: Rows, unit: Id, day: int, cap: nat): nat
    decreases cap
  {
    if cap == 0 || Taken(rows, unit, day) then 0 else 1 + IdleAfter(rows, unit, day + 1, cap - 1)
  }

  function Min(a: int, b: int): int {
    if a < b then a else b
  }

  lemma {:induction false} IdleBeforeRun(rows: Rows, unit: Id, last: Option<int>, day: int, cap: nat)
    requires last.Some? ==> last.value <= day && Taken(rows, unit, last.value - 1)
    requires forall n | n < day && (last.Some? ==> last.value <= n) :: !Taken(rows, unit, n)
    ensures IdleBefore(rows, unit, day, cap) == if last.Some? then Min(cap, day - last.value) else cap
    decreases cap
  {
    if cap > 0 && !(last.Some? && last.value == day) {
      IdleBeforeRun(rows, unit, last, day - 1, cap - 1);
    }
  }

  lemma {:induction false} IdleAfterRun(rows: Rows, unit: Id, next: Option<int>, day: int, cap: nat)
    requires next.Some? ==> day <= next.value && Taken(rows, unit, next.value)
    requires forall n | day <= n && (next.Some? ==> n < next.value) :: !Taken(rows, unit, n)
    ensures IdleAfter(rows, unit, day, cap) == if next.Some? then Min(cap, next.value - day) else cap
    decreases cap
  {
    if cap > 0 && !(next.Some? && next.value == day) {
      IdleAfterRun(rows, unit, next, day + 1, cap - 1);
    }
  }

  /** On a unit free for the stay, the neighbour query counts exactly the idle
      nights adjoining it, as far as the scorer looks. */
  lemma GapBeforeIsIdleNights(rows: Rows, unit: Id, stay: Stay)
    requires NonEmptyStays(rows) && stay.NonEmpty() && Free(rows, unit, stay)
    ensures Clamp(FreeBefore(rows, unit, stay.arrival)) == IdleBefore(rows, unit, stay.arrival, MAX_LOOKAHEAD)
  {
    var day := stay.arrival;
    var before := DeparturesBy(rows, unit, day);
    forall n | n < day && Taken(rows, unit, n) ensures exists d :: d in before && n < d {
      var i := TakenBy(rows, unit, n);
      assert !Occupies(rows[i], unit, stay);
      assert rows[i].stay.departure in before;
    }
    if w :| w in before {
      ExtremesExist(before, w);
      var last := day - FreeBefore(rows, unit, day);
      assert Greatest(before, last);
      var i :| i in rows && rows[i].unit == unit && Live(rows[i].state) && rows[i].stay.departure == last;
      assert rows[i].stay.Covers(last - 1);
      IdleBeforeRun(rows, unit, Some(last), day, MAX_LOOKAHEAD);
    } else {
      IdleBeforeRun(rows, unit, None, day, MAX_LOOKAHEAD);
    }
  }

  lemma GapAfterIsIdleNights(rows: Rows, unit: Id, stay: Stay)
    requires NonEmptyStays(rows) && stay.NonEmpty() && Free(rows, unit, stay)
    ensures Clamp(FreeAfter(rows, unit, stay.departure)) == IdleAfter(rows, unit, stay.departure, MAX_LOOKAHEAD)
  {
    var day := stay.departure;
    var after := ArrivalsFrom(rows, unit, day);
    forall n | day <= n && Taken(rows, unit, n) ensures exists a :: a in after && a <= n {
      var i := TakenBy(rows, unit, n);
      assert !Occupies(rows[i], unit, stay);
      assert rows[i].stay.arrival in after;
    }
    if w :| w in after {
      ExtremesExist(after, w);
      var next := day + FreeAfter(rows, unit, day);
      assert Least(after, next);
      var i :| i in rows && rows[i].unit == unit && Live(rows[i].state) && rows[i].stay.arrival == next;
      assert rows[i].stay.Covers(next);
      IdleAfterRun(rows, unit, Some(next), day, MAX_LOOKAHEAD);
    } else {
      IdleAfterRun(rows, unit, None, day, MAX_LOOKAHEAD);
    }
  }

  /** How many nights either side of the stay nobody has the unit, a fortnight at most. */
  function IdleNights(rows: Rows, unit: Id, stay: Stay): nat {
    IdleBefore(rows, unit, stay.arrival, MAX_LOOKAHEAD) + IdleAfter(rows, unit, stay.departure, MAX_LOOKAHEAD)
  }

  // ---- the hard filters, and the list they leave ---------------------------------------------------

  predicate OpenOn(u: Unit, night: int) {
    exists k :: 0 <= k < |u.seasons| && u.seasons[k].Covers(night)
  }

  /** The unit's open periods together cover every night. No period at all is
      closed, even for an empty range. */
  predicate OpenFor(u: Unit, stay: Stay) {
    u.seasons != [] && forall n | stay.arrival <= n < stay.departure :: OpenOn(u, n)
  }

  function Amps(u: Unit): int {
    if u.electricityAmp.Some? then u.electricityAmp.value else 0
  }

  /** What both queries ask of a unit, amperage aside. */
  predicate Suits(u: Unit, q: Query) {
    && u.category == q.category && u.active && OpenFor(u, q.stay)
    && u.maxOccupancy >= q.guests && (q.pets == 0 || u.petsAllowed)
    && (q.accessible ==> u.accessible)
  }

  predicate CanHost(units: map<Id, Unit>, rows: Rows, q: Query, id: Id) {
    && id in units && Suits(units[id], q)
    && (q.electricityAmp == 0 || Amps(units[id]) >= q.electricityAmp)
    && Free(rows, id, q.stay)
  }

  function CandidateOf(u: Unit, rows: Rows, q: Query, id: Id): Candidate {
    Candidate(id, u.sortOrder, FreeBefore(rows, id, q.stay.arrival), FreeAfter(rows, id, q.stay.departure),
              Amps(u), u.maxOccupancy, u.accessible, u.sanitary, u.hasView)
  }

  function NeedOf(q: Query): Need {
    Need(q.guests, q.electricityAmp, q.accessible, false)
  }

  /** The rows of the query, in whatever order the table was read. */
  function Matching(units: map<Id, Unit>, rows: Rows, q: Query, listing: seq<Id>): seq<Candidate> {
    if listing == [] then []
    else
      var n := |listing| - 1;
      var id := listing[n];
      Matching(units, rows, q, listing[..n])
      + if CanHost(units, rows, q, id) then [CandidateOf(units[id], rows, q, id)] else []
  }

  function Candidates(units: map<Id, Unit>, rows: Rows, q: Query, listing: seq<Id>): seq<Candidate> {
    Order(Matching(units, rows, q, listing), NeedOf(q))
  }

  method CandidatesOn(units: map<Id, Unit>, rows: Rows, q: Query, listing: seq<Id>) returns (cands: seq<Candidate>)
    ensures cands == Candidates(units, rows, q, listing)
  {
    cands := [];
    for i := 0 to |listing|
      invariant cands == Matching(units, rows, q, listing[..i])
    {
      var id := listing[i];
      if CanHost(units, rows, q, id) {
        cands := cands + [CandidateOf(units[id], rows, q, id)];
      }
      assert listing[..i + 1][..i] == listing[..i];
    }
    assert listing[..|listing|] == listing;
    cands := Order(cands, NeedOf(q));
  }

  /** Some order of the unit table: every unit once. */
  ghost predicate Lists(listing: seq<Id>, units: map<Id, Unit>) {
    && (forall i, j | 0 <= i < j < |listing| :: listing[i] != listing[j])
    && (forall u | u in units :: u in listing)
  }

  function Hosting(units: map<Id, Unit>, rows: Rows, q: Query): set<Id> {
    set u | u in units && CanHost(units, rows, q, u)
  }

  lemma {:induction false} MatchingAre(units: map<Id, Unit>, rows: Rows, q: Query, listing: seq<Id>, c: Candidate)
    ensures c in Matching(units, rows, q, listing) <==>
              c.unitId in listing && CanHost(units, rows, q, c.unitId)
              && c == CandidateOf(units[c.unitId], rows, q, c.unitId)
  {
    if listing != [] {
      var n := |listing| - 1;
      MatchingAre(units, rows, q, listing[..n], c);
      assert listing == listing[..n] + [listing[n]];
    }
  }

  lemma {:induction false} DistinctIsSet(xs: seq<Candidate>)
    requires DistinctUnits(xs)
    ensures multiset(xs) == multiset(set c | c in xs)
  {
    if xs != [] {
      var n := |xs| - 1;
      DistinctIsSet(xs[..n]);
      assert xs == xs[..n] + [xs[n]];
      assert xs[n] !in xs[..n];
      assert (set c | c in xs) == (set c | c in xs[..n]) + {xs[n]};
    }
  }

  lemma {:induction false} MatchingAreDistinct(units: map<Id, Unit>, rows: Rows, q: Query, listing: seq<Id>)
    requires forall i, j | 0 <= i < j < |listing| :: listing[i] != listing[j]
    ensures DistinctUnits(Matching(units, rows, q, listing))
    ensures multiset(Matching(units, rows, q, listing))
         == multiset(set c | c in Matching(units, rows, q, listing))
  {
    if listing != [] {
      var n := |listing| - 1;
      var before := Matching(units, rows, q, listing[..n]);
      MatchingAreDistinct(units, rows, q, listing[..n]);
      forall i | 0 <= i < |before| ensures before[i].unitId != listing[n] {
        MatchingAre(units, rows, q, listing[..n], before[i]);
      }
    }
    var all := Matching(units, rows, q, listing);
    DistinctIsSet(all);
  }

  lemma RearrangedStayDistinct(xs: seq<Candidate>, ys: seq<Candidate>)
    requires DistinctUnits(xs) && multiset(xs) == multiset(ys)
    ensures DistinctUnits(ys)
  {
    DistinctIsSet(xs);
    forall i, j | 0 <= i < j < |ys| ensures ys[i].unitId != ys[j].unitId {
      assert ys == ys[..j] + ys[j..] && ys[i] in ys[..j] && ys[j] in ys[j..];
      assert ys[i] in multiset(xs) && ys[j] in multiset(xs);
      var a :| 0 <= a < |xs| && xs[a] == ys[i];
      var b :| 0 <= b < |xs| && xs[b] == ys[j];
    }
  }

  function IdsOf(cands: seq<Candidate>): (ids: seq<Id>)
    ensures |ids| == |cands|
    ensures forall i | 0 <= i < |cands| :: ids[i] == cands[i].unitId
  {
    seq(|cands|, i requires 0 <= i < |cands| => cands[i].unitId)
  }

  lemma {:induction false} AsManyAsTheirIds(ids: seq<Id>, all: set<Id>)
    requires forall i, j | 0 <= i < j < |ids| :: ids[i] != ids[j]
    requires forall u :: u in ids <==> u in all
    ensures |ids| == |all|
  {
    if ids != [] {
      var n := |ids| - 1;
      assert ids == ids[..n] + [ids[n]];
      AsManyAsTheirIds(ids[..n], all - {ids[n]});
    }
  }

  /** The candidate list holds each unit that could host the stay, once. */
  lemma CandidatesAreHosting(units: map<Id, Unit>, rows: Rows, q: Query, listing: seq<Id>)
    requires Lists(listing, units)
    ensures var cands := Candidates(units, rows, q, listing);
            && DistinctUnits(cands)
            && (forall u :: u in IdsOf(cands) <==> u in Hosting(units, rows, q))
            && |cands| == |Hosting(units, rows, q)|
  {
    var found := Matching(units, rows, q, listing);
    var cands := Candidates(units, rows, q, listing);
    OrderLeadsWithBest(found, NeedOf(q));
    MatchingAreDistinct(units, rows, q, listing);
    RearrangedStayDistinct(found, cands);
    forall u ensures u in IdsOf(cands) <==> u in Hosting(units, rows, q) {
      if u in IdsOf(cands) {
        var i :| 0 <= i < |cands| && IdsOf(cands)[i] == u;
        assert cands[i] in multiset(found);
        MatchingAre(units, rows, q, listing, cands[i]);
      }
      if u in Hosting(units, rows, q) {
        var c := CandidateOf(units[u], rows, q, u);
        MatchingAre(units, rows, q, listing, c);
        assert c in multiset(cands);
        var i :| 0 <= i < |cands| && cands[i] == c;
        assert IdsOf(cands)[i] == u;
      }
    }
    AsManyAsTheirIds(IdsOf(cands), Hosting(units, rows, q));
  }

  // ---- who is listed, in the unit's own figures ------------------------------------------------

  ghost predicate InSeason(seasons: seq<Stay>, night: int) {
    exists k :: 0 <= k < |seasons| && seasons[k].arrival <= night && night < seasons[k].departure
  }

  /** The unit takes such a party: it is in service and of the category, sleeps them all,
      takes pets if there are any, gives the amperes asked for, is accessible if that is
      asked, and is open on every night. */
  ghost predicate Takes(u: Unit, category: Id, stay: Stay, guests: int, pets: int, amp: int, accessible: bool) {
    && u.active && category == u.category
    && guests <= u.maxOccupancy
    && (pets != 0 ==> u.petsAllowed)
    && (amp != 0 ==> amp <= match u.electricityAmp case Some(given) => given case None => 0)
    && (accessible ==> u.accessible)
    && u.seasons != [] && forall n | stay.arrival <= n < stay.departure :: InSeason(u.seasons, n)
  }

  lemma HostingTakes(units: map<Id, Unit>, rows: Rows, q: Query, id: Id)
    ensures id in Hosting(units, rows, q) <==>
              && id in units && Free(rows, id, q.stay)
              && Takes(units[id], q.category, q.stay, q.guests, q.pets, q.electricityAmp, q.accessible)
  {
    if id in units {
      var u := units[id];
      forall n ensures OpenOn(u, n) <==> InSeason(u.seasons, n) {
        if OpenOn(u, n) {
          var k :| 0 <= k < |u.seasons| && u.seasons[k].Covers(n);
        }
        if InSeason(u.seasons, n) {
          var k :| 0 <= k < |u.seasons| && u.seasons[k].arrival <= n && n < u.seasons[k].departure;
          assert u.seasons[k].Covers(n);
        }
      }
    }
  }

  lemma ListedHosts(units: map<Id, Unit>, rows: Rows, q: Query, listing: seq<Id>, id: Id)
    requires id in IdsOf(Candidates(units, rows, q, listing))
    ensures id in Hosting(units, rows, q)
  {
    var found, cands := Matching(units, rows, q, listing), Candidates(units, rows, q, listing);
    OrderLeadsWithBest(found, NeedOf(q));
    var i :| 0 <= i < |cands| && IdsOf(cands)[i] == id;
    assert cands[i] in multiset(found);
    MatchingAre(units, rows, q, listing, cands[i]);
  }

  /** A unit is listed exactly when it takes the party and nobody has it on any night of
      the stay. */
  lemma ListedExactlyWhen(units: map<Id, Unit>, rows: Rows, q: Query, listing: seq<Id>, id: Id)
    requires Lists(listing, units) && NonEmptyStays(rows) && q.stay.NonEmpty()
    ensures id in IdsOf(Candidates(units, rows, q, listing)) <==>
              && id in units
              && Takes(units[id], q.category, q.stay, q.guests, q.pets, q.electricityAmp, q.accessible)
              && forall n | q.stay.arrival <= n < q.stay.departure :: !Taken(rows, id, n)
  {
    CandidatesAreHosting(units, rows, q, listing);
    HostingTakes(units, rows, q, id);
    FreeExactlyWhen(rows, id, q.stay);
  }

  /** And it is listed as what it is, with the idle nights beside the stay, a missing
      amperage being none. */
  lemma ListedAsItIs(units: map<Id, Unit>, rows: Rows, q: Query, listing: seq<Id>, c: Candidate)
    requires NonEmptyStays(rows) && q.stay.NonEmpty() && c in Candidates(units, rows, q, listing)
    ensures c.unitId in units && Clamp(c.freeBefore) + Clamp(c.freeAfter) == IdleNights(rows, c.unitId, q.stay)
    ensures var u := units[c.unitId];
            && c.sortOrder == u.sortOrder && c.maxOccupancy == u.maxOccupancy
            && (c.accessible <==> u.accessible) && (c.sanitary <==> u.sanitary) && (c.hasView <==> u.hasView)
            && c.electricityAmp == match u.electricityAmp case Some(given) => given case None => 0
  {
    var found := Matching(units, rows, q, listing);
    OrderLeadsWithBest(found, NeedOf(q));
    assert c in multiset(found);
    MatchingAre(units, rows, q, listing, c);
    GapBeforeIsIdleNights(rows, c.unitId, q.stay);
    GapAfterIsIdleNights(rows, c.unitId, q.stay);
  }

  /** The list is ordered for what the guest asked, and nobody asks for plumbing. */
  lemma ListedForTheGuest(units: map<Id, Unit>, rows: Rows, q: Query, listing: seq<Id>)
    requires Candidates(units, rows, q, listing) != []
    ensures IsBest(Candidates(units, rows, q, listing)[0], Candidates(units, rows, q, listing),
                   Need(q.guests, q.electricityAmp, q.accessible, false))
  {
    var found, cands := Matching(units, rows, q, listing), Candidates(units, rows, q, listing);
    OrderLeadsWithBest(found, NeedOf(q));
    forall i | 0 <= i < |cands| ensures NoWorse(NeedOf(q), cands[0], cands[i]) {
      assert cands[i] in multiset(found);
      var k :| 0 <= k < |found| && found[k] == cands[i];
    }
  }

  /** The unit chosen leaves the fewest idle nights beside the stay: another that could
      host it leaves fewer only if what it wastes, or its place in the listing, outweighs
      them, ten points of surplus to the night. */
  lemma ChosenLeavesFewestIdleNights(units: map<Id, Unit>, rows: Rows, q: Query, listing: seq<Id>, chosen: Candidate,
                                     id: Id)
    requires Lists(listing, units) && NonEmptyStays(rows) && q.stay.NonEmpty()
    requires id in Hosting(units, rows, q)
    requires IsBest(chosen, Candidates(units, rows, q, listing), Need(q.guests, q.electricityAmp, q.accessible, false))
    ensures var need := Need(q.guests, q.electricityAmp, q.accessible, false);
            var other := CandidateOf(units[id], rows, q, id);
            var weight := 10 * (Surplus(other, need) - Surplus(chosen, need)) + other.sortOrder - chosen.sortOrder;
            && 100 * (IdleNights(rows, chosen.unitId, q.stay) - IdleNights(rows, id, q.stay)) <= weight
            && (weight < 100 ==> IdleNights(rows, chosen.unitId, q.stay) <= IdleNights(rows, id, q.stay))
  {
    var cands, found := Candidates(units, rows, q, listing), Matching(units, rows, q, listing);
    var other := CandidateOf(units[id], rows, q, id);
    OrderLeadsWithBest(found, NeedOf(q));
    MatchingAre(units, rows, q, listing, other);
    MatchingAre(units, rows, q, listing, chosen);
    assert other in multiset(cands) && chosen in multiset(cands);
    var i :| 0 <= i < |cands| && cands[i] == other;
    assert NoWorse(NeedOf(q), chosen, cands[i]);
    GapBeforeIsIdleNights(rows, chosen.unitId, q.stay);
    GapAfterIsIdleNights(rows, chosen.unitId, q.stay);
    GapBeforeIsIdleNights(rows, id, q.stay);
    GapAfterIsIdleNights(rows, id, q.stay);
  }

  /** So the order the database happens to read units in changes nothing. */
  lemma CandidatesIgnoreRowOrder(units: map<Id, Unit>, rows: Rows, q: Query, xs: seq<Id>, ys: seq<Id>)
    requires Lists(xs, units) && Lists(ys, units)
    ensures Candidates(units, rows, q, xs) == Candidates(units, rows, q, ys)
  {
    var first, second := Matching(units, rows, q, xs), Matching(units, rows, q, ys);
    MatchingAreDistinct(units, rows, q, xs);
    MatchingAreDistinct(units, rows, q, ys);
    forall c ensures c in first <==> c in second {
      MatchingAre(units, rows, q, xs, c);
      MatchingAre(units, rows, q, ys, c);
    }
    assert (set c | c in first) == (set c | c in second);
    OrderIgnoresInputOrder(first, second, NeedOf(q));
  }
}
