/** Seasons are what staff write; the compiled calendar is what prices read. */
module Calendar {
  import opened Dates
  import opened Options
  import P = Pricing

  type Id = nat

  datatype RatePlan = RatePlan(code: string, currency: string, active: bool)

  /** Both ends are nights of the season. `maxStay` is the nullable column; the
      rate's own is filled in when the calendar is read. */
  datatype Season = Season(
    plan: Id, priority: int, startsOn: int, endsOn: int, weekdayMask: int, rate: P.RateDay, maxStay: Option<int>)

  datatype DayRow = DayRow(currency: string, rate: P.RateDay, maxStay: Option<int>, source: Id)

  type Seasons = map<Id, Season>
  type Days = map<(Id, int), DayRow>

  // ---- which season wins a night ------------------------------------------------------------

  predicate CoversNight(s: Season, plan: Id, day: int) {
    s.plan == plan && s.startsOn <= day <= s.endsOn && MaskHas(s.weekdayMask, day)
  }

  /** order by priority desc, starts_on desc, id. */
  predicate Beats(seasons: Seasons, a: Id, b: Id)
    requires a in seasons && b in seasons
  {
    var x, y := seasons[a], seasons[b];
    if x.priority != y.priority then x.priority > y.priority
    else if x.startsOn != y.startsOn then x.startsOn > y.startsOn
    else a <= b
  }

  lemma BeatsIsOrder(seasons: Seasons, a: Id, b: Id, c: Id)
    requires a in seasons && b in seasons && c in seasons
    ensures Beats(seasons, a, b) || Beats(seasons, b, a)
    ensures Beats(seasons, a, b) && Beats(seasons, b, c) ==> Beats(seasons, a, c)
  {
  }

  predicate Wins(seasons: Seasons, plan: Id, day: int, id: Id) {
    && id in seasons && CoversNight(seasons[id], plan, day)
    && forall o | o in seasons && CoversNight(seasons[o], plan, day) :: Beats(seasons, id, o)
  }

  /** The one row `limit 1` leaves. */
  function Winner(seasons: Seasons, plan: Id, day: int): (r: Option<Id>)
    ensures r.Some? ==> Wins(seasons, plan, day, r.value)
  {
    if exists id | id in seasons :: Wins(seasons, plan, day, id) then
      var id :| id in seasons && Wins(seasons, plan, day, id);
      Some(id)
    else None
  }

  predicate Covered(seasons: Seasons, plan: Id, day: int) {
    exists id | id in seasons :: CoversNight(seasons[id], plan, day)
  }

  lemma {:induction false} SomeoneWins(seasons: Seasons, ids: set<Id>, i: Id) returns (best: Id)
    requires i in ids && forall o | o in ids :: o in seasons
    ensures best in ids && forall o | o in ids :: Beats(seasons, best, o)
    decreases |ids|
  {
    best := i;
    var rest := ids - {i};
    if j :| j in rest {
      var w := SomeoneWins(seasons, rest, j);
      if !Beats(seasons, i, w) {
        best := w;
      }
      forall o | o in ids ensures Beats(seasons, best, o) {
        BeatsIsOrder(seasons, i, w, o);
      }
    } else {
      assert forall o | o in ids :: o == i || o in rest;
    }
  }

  /** The season is for the plan, runs from its first day to its last, both included, and
      names the weekday. */
  ghost predicate InForce(s: Season, plan: Id, day: int) {
    plan == s.plan && day >= s.startsOn && s.endsOn >= day && Names(s.weekdayMask, Weekday(day))
  }

  lemma CoversMeans(s: Season, plan: Id, day: int)
    ensures CoversNight(s, plan, day) <==> InForce(s, plan, day)
  {
    MaskNames(s.weekdayMask, day);
  }

  lemma CoveredMeans(seasons: Seasons, plan: Id, day: int)
    ensures Covered(seasons, plan, day) <==> exists id :: id in seasons && InForce(seasons[id], plan, day)
  {
    forall id | id in seasons ensures CoversNight(seasons[id], plan, day) <==> InForce(seasons[id], plan, day) {
      CoversMeans(seasons[id], plan, day);
    }
  }

  /** A night has a winner exactly when some season is in force on it. */
  lemma WinnerIffInForce(seasons: Seasons, plan: Id, day: int)
    ensures Winner(seasons, plan, day).Some? <==> exists id :: id in seasons && InForce(seasons[id], plan, day)
  {
    WinnerIffCovered(seasons, plan, day);
    CoveredMeans(seasons, plan, day);
  }

  lemma WinnerIffCovered(seasons: Seasons, plan: Id, day: int)
    ensures Winner(seasons, plan, day).Some? <==> Covered(seasons, plan, day)
  {
    var ids := set i | i in seasons && CoversNight(seasons[i], plan, day);
    if Covered(seasons, plan, day) {
      var c :| c in seasons && CoversNight(seasons[c], plan, day);
      assert c in ids;
      var w := SomeoneWins(seasons, ids, c);
      assert Wins(seasons, plan, day, w);
    }
  }

  /** rate_season_no_ambiguous_overlap: layers of equal priority never share a date. */
  ghost predicate Unambiguous(seasons: Seasons) {
    forall a, b | a in seasons && b in seasons && a != b
                  && seasons[a].plan == seasons[b].plan && seasons[a].priority == seasons[b].priority ::
      seasons[a].endsOn < seasons[b].startsOn || seasons[b].endsOn < seasons[a].startsOn
  }

  /** Under the constraint the tie-breaks never decide: the winner is the one season of
      top priority in force on that night. */
  lemma WinnerIsTopPriority(seasons: Seasons, plan: Id, day: int, id: Id)
    requires Unambiguous(seasons)
    ensures Winner(seasons, plan, day) == Some(id) <==>
              && id in seasons && InForce(seasons[id], plan, day)
              && forall o | o in seasons && o != id && InForce(seasons[o], plan, day) ::
                   seasons[o].priority < seasons[id].priority
  {
    WinnerIffCovered(seasons, plan, day);
    forall o | o in seasons ensures CoversNight(seasons[o], plan, day) <==> InForce(seasons[o], plan, day) {
      CoversMeans(seasons[o], plan, day);
    }
  }

  /** Where layers of one priority do meet, the later start decides, and then the lower id. */
  lemma WinnerBeatsTheRest(seasons: Seasons, plan: Id, day: int, id: Id, o: Id)
    requires Winner(seasons, plan, day) == Some(id) && o in seasons && InForce(seasons[o], plan, day)
    ensures id in seasons && InForce(seasons[id], plan, day)
    ensures var x, y := seasons[id], seasons[o];
            || x.priority > y.priority
            || (x.priority == y.priority && x.startsOn > y.startsOn)
            || (x.priority == y.priority && x.startsOn == y.startsOn && id <= o)
  {
    CoversMeans(seasons[id], plan, day);
    CoversMeans(seasons[o], plan, day);
  }

  // ---- compiling ----------------------------------------------------------------------------------

  /** The calendar row each night should have, if any: the winning season's terms in
      the plan's currency, and which season that was. */
  function Target(plans: map<Id, RatePlan>, seasons: Seasons, plan: Id, day: int): Option<DayRow> {
    var w := Winner(seasons, plan, day);
    if w.Some? && plan in plans then
      var s := seasons[w.value];
      Some(DayRow(plans[plan].currency, s.rate, s.maxStay, w.value))
    else None
  }

  function Targets(plans: map<Id, RatePlan>, seasons: Seasons, plan: Id): int -> Option<DayRow> {
    day => Target(plans, seasons, plan, day)
  }

  function PlanTargets(plans: map<Id, RatePlan>, seasons: Seasons): Id -> int -> Option<DayRow> {
    plan => Targets(plans, seasons, plan)
  }

  /** Every season belongs to a plan: the foreign key. */
  ghost predicate PlansExist(plans: map<Id, RatePlan>, seasons: Seasons) {
    forall s | s in seasons :: seasons[s].plan in plans
  }

  lemma TargetIffCovered(plans: map<Id, RatePlan>, seasons: Seasons, plan: Id, day: int)
    requires PlansExist(plans, seasons)
    ensures Target(plans, seasons, plan, day).Some? <==> Covered(seasons, plan, day)
  {
    WinnerIffCovered(seasons, plan, day);
  }

  function RowAt(days: Days, plan: Id, day: int): Option<DayRow> {
    if (plan, day) in days then Some(days[(plan, day)]) else None
  }

  /** In the window the plan's rows are exactly the targets; nothing else moved. */
  ghost predicate IsCompiled(target: int -> Option<DayRow>, plan: Id, from: int, to: int, before: Days, after: Days) {
    && (forall d | from <= d <= to :: RowAt(after, plan, d) == target(d))
    && (forall p, d | !(p == plan && from <= d <= to) :: RowAt(after, p, d) == RowAt(before, p, d))
  }

  /** What a night is left with when the insert saw the first state of the seasons and
      the delete the later one. */
  function NightLeft(plans: map<Id, RatePlan>, first: Seasons, later: Seasons, plan: Id, day: int,
                     before: Option<DayRow>): Option<DayRow>
  {
    var target := Target(plans, first, plan, day);
    if !Covered(later, plan, day) then None else if target.Some? then target else before
  }

  ghost predicate WindowLeft(plans: map<Id, RatePlan>, first: Seasons, later: Seasons, plan: Id, from: int, to: int,
                             before: Days, after: Days)
  {
    forall d | from <= d <= to ::
      RowAt(after, plan, d) == NightLeft(plans, first, later, plan, d, RowAt(before, plan, d))
  }

  ghost predicate OthersKept(plan: Id, from: int, to: int, before: Days, after: Days) {
    forall p, d | !(p == plan && from <= d <= to) :: RowAt(after, p, d) == RowAt(before, p, d)
  }

  /** How many nights of the window have a target. */
  function CountSome(target: int -> Option<DayRow>, from: int, to: int): nat
    decreases to - from
  {
    if to < from then 0 else CountSome(target, from, to - 1) + if target(to).Some? then 1 else 0
  }

  /** The plans a recompilation covers, in the order they are listed. */
  function Active(plans: map<Id, RatePlan>, listing: seq<Id>): seq<Id> {
    if listing == [] then []
    else
      var n := |listing| - 1;
      Active(plans, listing[..n])
      + if listing[n] in plans && plans[listing[n]].active then [listing[n]] else []
  }

  /** Each listed plan's window holds its targets, and other rows are as they were. */
  ghost predicate AllCompiled(targets: Id -> int -> Option<DayRow>, ids: seq<Id>, from: int, to: int,
                              before: Days, after: Days)
  {
    && (forall p, d | p in ids && from <= d <= to :: RowAt(after, p, d) == targets(p)(d))
    && (forall p, d | !(p in ids && from <= d <= to) :: RowAt(after, p, d) == RowAt(before, p, d))
  }

  /** What other clients have made of the seasons by the insert and by the delete of each
      plan's recompilation, plan by plan. */
  type Views = seq<(Seasons, Seasons)>

  ghost predicate AllLeft(plans: map<Id, RatePlan>, seen: Views, ids: seq<Id>, from: int, to: int,
                          before: Days, after: Days)
  {
    && |ids| <= |seen|
    && (forall n | 0 <= n < |ids| :: WindowLeft(plans, seen[n].0, seen[n].1, ids[n], from, to, before, after))
    && (forall p, d | !(p in ids && from <= d <= to) :: RowAt(after, p, d) == RowAt(before, p, d))
  }

  function CountAll(plans: map<Id, RatePlan>, seen: Views, ids: seq<Id>, from: int, to: int): nat
    requires |ids| <= |seen|
  {
    if ids == [] then 0
    else
      var n := |ids| - 1;
      CountAll(plans, seen, ids[..n], from, to) + CountSome(Targets(plans, seen[n].0, ids[n]), from, to)
  }

  ghost predicate Distinct(ids: seq<Id>) {
    forall i, j | 0 <= i < j < |ids| :: ids[i] != ids[j]
  }

  lemma {:induction false} ActiveAreListed(plans: map<Id, RatePlan>, listing: seq<Id>)
    ensures forall p | p in Active(plans, listing) :: p in listing
  {
    if listing != [] {
      ActiveAreListed(plans, listing[..|listing| - 1]);
    }
  }

  class RateCalendar {
    var plans: map<Id, RatePlan>
    var seasons: Seasons
    var days: Days

    ghost predicate Valid()
      reads this
    {
      PlansExist(plans, seasons)
    }

    /** The insert: each night of the window that has a target gets it. */
    method Upsert(plan: Id, from: int, to: int, target: int -> Option<DayRow>) returns (compiled: nat)
      modifies this`days
      ensures forall d | from <= d <= to && target(d).Some? :: RowAt(days, plan, d) == target(d)
      ensures forall p, d | !(p == plan && from <= d <= to && target(d).Some?) ::
                RowAt(days, p, d) == RowAt(old(days), p, d)
      ensures compiled == CountSome(target, from, to)
    {
      compiled := 0;
      var day := from;
      while day <= to
        invariant from <= day && (day <= to + 1 || day == from)
        invariant forall d | from <= d < day && target(d).Some? :: RowAt(days, plan, d) == target(d)
        invariant forall p, d | !(p == plan && from <= d < day && target(d).Some?) ::
                    RowAt(days, p, d) == RowAt(old(days), p, d)
        invariant compiled == CountSome(target, from, day - 1)
      {
        var row := target(day);
        if row.Some? {
          days := days[(plan, day) := row.value];
          compiled := compiled + 1;
        }
        day := day + 1;
      }
    }

    /** The delete: nights of the window no season covers lose their row. */
    method Prune(plan: Id, from: int, to: int, covered: int -> bool)
      modifies this`days
      ensures forall d | from <= d <= to && !covered(d) :: RowAt(days, plan, d) == None
      ensures forall p, d | !(p == plan && from <= d <= to && !covered(d)) ::
                RowAt(days, p, d) == RowAt(old(days), p, d)
    {
      days := map k | k in days && !(k.0 == plan && from <= k.1 <= to && !covered(k.1)) :: days[k];
    }

    /** Upserts the winner of each night of the window, then prunes the nights no
        season covers any more. The two statements each read the seasons as they then
        stand, and other clients may commit in between. */
    method Compile(plan: Id, from: int, to: int, later: Seasons) returns (compiled: nat)
      requires Valid() && PlansExist(plans, later)
      modifies this`days, this`seasons
      ensures Valid() && seasons == later
      ensures WindowLeft(plans, old(seasons), later, plan, from, to, old(days), days)
      ensures OthersKept(plan, from, to, old(days), days)
      ensures compiled == CountSome(Targets(plans, old(seasons), plan), from, to)
    {
      compiled := Upsert(plan, from, to, Targets(plans, seasons, plan));
      seasons := later;
      Prune(plan, from, to, day => Covered(later, plan, day));
    }

    /** Recompiles every active plan, each in a transaction of its own. */
    method CompileAll(listing: seq<Id>, from: int, to: int, seen: Views) returns (total: nat)
      requires Distinct(listing) && |Active(plans, listing)| <= |seen|
      requires forall n | 0 <= n < |seen| :: PlansExist(plans, seen[n].0) && PlansExist(plans, seen[n].1)
      modifies this`days, this`seasons
      ensures AllLeft(plans, seen, Active(plans, listing), from, to, old(days), days)
      ensures total == CountAll(plans, seen, Active(plans, listing), from, to)
    {
      total := 0;
      var n := 0;
      ghost var start, done := days, [];
      for i := 0 to |listing|
        invariant done == Active(plans, listing[..i]) && n == |done| <= |seen|
        invariant AllLeft(plans, seen, done, from, to, start, days)
        invariant total == CountAll(plans, seen, done, from, to)
      {
        NextActive(plans, listing, i);
        if listing[i] in plans && plans[listing[i]].active {
          ghost var before := days;
          seasons := seen[n].0;
          var compiled := Compile(listing[i], from, to, seen[n].1);
          OneMoreLeft(plans, seen, done, listing[i], from, to, start, before, days);
          total := total + compiled;
          done := done + [listing[i]];
          n := n + 1;
        }
      }
      assert listing[..|listing|] == listing;
    }
  }

  lemma NextActive(plans: map<Id, RatePlan>, listing: seq<Id>, i: nat)
    requires Distinct(listing) && i < |listing|
    ensures listing[i] !in Active(plans, listing[..i])
    ensures Active(plans, listing[..i + 1])
         == if listing[i] in plans && plans[listing[i]].active then Active(plans, listing[..i]) + [listing[i]]
            else Active(plans, listing[..i])
    ensures |Active(plans, listing[..i + 1])| <= |Active(plans, listing)|
  {
    ActiveAreListed(plans, listing[..i]);
    ActiveGrows(plans, listing, i + 1);
    assert listing[..i + 1][..i] == listing[..i];
    assert Active(plans, listing[..i]) + [] == Active(plans, listing[..i]);
  }

  lemma {:induction false} ActiveGrows(plans: map<Id, RatePlan>, listing: seq<Id>, i: nat)
    requires i <= |listing|
    ensures |Active(plans, listing[..i])| <= |Active(plans, listing)|
  {
    if i == |listing| {
      assert listing[..i] == listing;
    } else {
      var n := |listing| - 1;
      assert listing[..n][..i] == listing[..i];
      ActiveGrows(plans, listing[..n], i);
    }
  }

  /** A window's nights do not notice what is done to another plan's. */
  lemma WindowUnmoved(plans: map<Id, RatePlan>, first: Seasons, later: Seasons, q: Id, p: Id, from: int, to: int,
                      start: Days, before: Days, after: Days)
    requires p != q && OthersKept(p, from, to, before, after)
    requires WindowLeft(plans, first, later, q, from, to, start, before)
    ensures WindowLeft(plans, first, later, q, from, to, start, after)
  {
    forall d | from <= d <= to ensures RowAt(after, q, d) == RowAt(before, q, d) {
    }
  }

  lemma OneMoreLeft(plans: map<Id, RatePlan>, seen: Views, done: seq<Id>, p: Id, from: int, to: int,
                    start: Days, before: Days, after: Days)
    requires AllLeft(plans, seen, done, from, to, start, before) && p !in done
    requires |done| < |seen| && WindowLeft(plans, seen[|done|].0, seen[|done|].1, p, from, to, before, after)
    requires OthersKept(p, from, to, before, after)
    ensures AllLeft(plans, seen, done + [p], from, to, start, after)
    ensures CountAll(plans, seen, done + [p], from, to)
         == CountAll(plans, seen, done, from, to) + CountSome(Targets(plans, seen[|done|].0, p), from, to)
  {
    var ids := done + [p];
    assert ids[..|done|] == done;
    forall n | 0 <= n < |ids|
      ensures WindowLeft(plans, seen[n].0, seen[n].1, ids[n], from, to, start, after)
    {
      if n < |done| {
        WindowUnmoved(plans, seen[n].0, seen[n].1, done[n], p, from, to, start, before, after);
      } else {
        assert n == |done|;
        forall d | from <= d <= to ensures RowAt(before, p, d) == RowAt(start, p, d) {
        }
      }
    }
  }

  // ---- when the seasons hold still, and when they do not ------------------------------------------------

  /** The night comes out as the later seasons have it. */
  ghost predicate Settles(plans: map<Id, RatePlan>, first: Seasons, later: Seasons, plan: Id, day: int,
                          before: Option<DayRow>)
  {
    var row := if Covered(first, plan, day) then Target(plans, first, plan, day) else before;
    Covered(later, plan, day) ==> row == Target(plans, later, plan, day)
  }

  lemma NightSettles(plans: map<Id, RatePlan>, first: Seasons, later: Seasons, plan: Id, day: int,
                     before: Option<DayRow>)
    requires PlansExist(plans, first) && PlansExist(plans, later)
    ensures NightLeft(plans, first, later, plan, day, before) == Target(plans, later, plan, day) <==>
              Settles(plans, first, later, plan, day, before)
    ensures !Covered(first, plan, day) && before == None ==> NightLeft(plans, first, later, plan, day, before) == None
    ensures first == later ==> Settles(plans, first, later, plan, day, before)
  {
    TargetIffCovered(plans, first, plan, day);
    TargetIffCovered(plans, later, plan, day);
  }

  /** A recompilation leaves exactly the winners of the seasons as they stand at its end
      when each night those cover had the same winner at its beginning, or no cover then
      and that very row already. So with no edit under way it always does. */
  lemma CompilesExactlyWhen(plans: map<Id, RatePlan>, first: Seasons, later: Seasons, plan: Id, from: int, to: int,
                            before: Days, after: Days)
    requires PlansExist(plans, first) && PlansExist(plans, later)
    requires WindowLeft(plans, first, later, plan, from, to, before, after)
    requires OthersKept(plan, from, to, before, after)
    ensures IsCompiled(Targets(plans, later, plan), plan, from, to, before, after) <==>
              forall d | from <= d <= to :: Settles(plans, first, later, plan, d, RowAt(before, plan, d))
    ensures first == later ==> IsCompiled(Targets(plans, later, plan), plan, from, to, before, after)
  {
    var target := Targets(plans, later, plan);
    forall d | from <= d <= to
      ensures RowAt(after, plan, d) == target(d) <==> Settles(plans, first, later, plan, d, RowAt(before, plan, d))
      ensures first == later ==> Settles(plans, first, later, plan, d, RowAt(before, plan, d))
    {
      NightSettles(plans, first, later, plan, d, RowAt(before, plan, d));
    }
  }

  /** A season committed between the two statements leaves a night it covers without a
      row, and so closed, if no other season covered it and it had none. */
  lemma LateSeasonIsMissed(plans: map<Id, RatePlan>, first: Seasons, later: Seasons, plan: Id, from: int, to: int,
                           before: Days, after: Days, day: int)
    requires PlansExist(plans, first) && PlansExist(plans, later)
    requires WindowLeft(plans, first, later, plan, from, to, before, after)
    requires from <= day <= to && !Covered(first, plan, day) && (plan, day) !in before
    ensures (plan, day) !in after
  {
    NightSettles(plans, first, later, plan, day, RowAt(before, plan, day));
  }

  /** With no edit of the seasons under way every active plan comes out compiled. */
  lemma QuietRunCompilesAll(plans: map<Id, RatePlan>, seasons: Seasons, seen: Views, ids: seq<Id>,
                            from: int, to: int, before: Days, after: Days)
    requires PlansExist(plans, seasons) && forall n | 0 <= n < |seen| :: seen[n] == (seasons, seasons)
    requires AllLeft(plans, seen, ids, from, to, before, after)
    ensures AllCompiled(PlanTargets(plans, seasons), ids, from, to, before, after)
  {
    forall p, d | p in ids && from <= d <= to ensures RowAt(after, p, d) == PlanTargets(plans, seasons)(p)(d) {
      var n :| 0 <= n < |ids| && ids[n] == p;
      assert WindowLeft(plans, seen[n].0, seen[n].1, ids[n], from, to, before, after);
      NightSettles(plans, seasons, seasons, p, d, RowAt(before, p, d));
    }
  }

  // ---- what compiling promises -----------------------------------------------------------------------

  lemma SameRows(x: Days, y: Days)
    requires forall p, d :: RowAt(x, p, d) == RowAt(y, p, d)
    ensures x == y
  {
    forall k | k in x ensures k in y && y[k] == x[k] {
      assert RowAt(x, k.0, k.1) == RowAt(y, k.0, k.1);
    }
    forall k | k in y ensures k in x {
      assert RowAt(x, k.0, k.1) == RowAt(y, k.0, k.1);
    }
  }

  /** There is one compiled calendar, so recompiling changes nothing. */
  lemma CompileIsIdempotent(target: int -> Option<DayRow>, plan: Id, from: int, to: int,
                            before: Days, once: Days, twice: Days)
    requires IsCompiled(target, plan, from, to, before, once)
    requires IsCompiled(target, plan, from, to, once, twice)
    ensures twice == once
  {
    forall p, d ensures RowAt(twice, p, d) == RowAt(once, p, d) {
      if p == plan && from <= d <= to {
        assert RowAt(once, plan, d) == target(d) == RowAt(twice, plan, d);
      }
    }
    SameRows(twice, once);
  }

  /** Two windows that meet, compiled one after the other in either order, are the
      one window compiled at once. */
  lemma WindowsCompose(target: int -> Option<DayRow>, plan: Id, from: int, middle: int, to: int,
                       before: Days, x: Days, early: Days, y: Days, late: Days, whole: Days)
    requires from <= middle + 1 && middle <= to
    requires IsCompiled(target, plan, from, middle, before, x) && IsCompiled(target, plan, middle + 1, to, x, early)
    requires IsCompiled(target, plan, middle + 1, to, before, y) && IsCompiled(target, plan, from, middle, y, late)
    requires IsCompiled(target, plan, from, to, before, whole)
    ensures early == whole == late
  {
    forall p, d ensures RowAt(early, p, d) == RowAt(whole, p, d) == RowAt(late, p, d) {
      if p == plan && from <= d <= to {
        assert RowAt(whole, plan, d) == target(d);
        if d <= middle {
          assert RowAt(late, plan, d) == target(d) == RowAt(x, plan, d);
        } else {
          assert RowAt(early, plan, d) == target(d) == RowAt(y, plan, d);
        }
      }
    }
    SameRows(early, whole);
    SameRows(late, whole);
  }

  /** After a recompilation with no edit under way a night of the window has a row exactly
      when some season of the plan runs over it and names its weekday, and then on the
      terms of the one of top priority, in the plan's currency. */
  lemma CompiledNight(plans: map<Id, RatePlan>, seasons: Seasons, plan: Id, from: int, to: int,
                      before: Days, after: Days, day: int, id: Id)
    requires PlansExist(plans, seasons) && Unambiguous(seasons) && from <= day <= to
    requires WindowLeft(plans, seasons, seasons, plan, from, to, before, after)
    ensures (plan, day) in after <==>
              exists s :: s in seasons && seasons[s].plan == plan && seasons[s].startsOn <= day <= seasons[s].endsOn
                && Names(seasons[s].weekdayMask, Weekday(day))
    ensures (plan, day) in after && after[(plan, day)].source == id <==>
              && id in seasons && InForce(seasons[id], plan, day)
              && forall o | o in seasons && o != id && InForce(seasons[o], plan, day) ::
                   seasons[o].priority < seasons[id].priority
    ensures (plan, day) in after ==>
              var row := after[(plan, day)];
              && row.source in seasons && plan in plans
              && row == DayRow(plans[plan].currency, seasons[row.source].rate, seasons[row.source].maxStay, row.source)
  {
    NightSettles(plans, seasons, seasons, plan, day, RowAt(before, plan, day));
    assert RowAt(after, plan, day) == Target(plans, seasons, plan, day);
    TargetIffCovered(plans, seasons, plan, day);
    WinnerIsTopPriority(seasons, plan, day, id);
    CoveredMeans(seasons, plan, day);
    if s :| s in seasons && InForce(seasons[s], plan, day) {
      assert seasons[s].plan == plan && seasons[s].startsOn <= day <= seasons[s].endsOn;
    }
  }

  // ---- pricing from the calendar -------------------------------------------------------------------------

  /** coalesce(max_stay, 0): no limit. */
  function Filled(rate: P.RateDay, maxStay: Option<int>): P.RateDay {
    rate.(maxStay := if maxStay.Some? then maxStay.value else 0)
  }

  /** What loading a snapshot reads. */
  function CompiledNights(days: Days, plan: Id, stay: Stay): map<int, P.RateDay> {
    map d | stay.arrival <= d < stay.departure && (plan, d) in days ::
      Filled(days[(plan, d)].rate, days[(plan, d)].maxStay)
  }

  /** The same nights straight from the seasons. */
  function SeasonNights(seasons: Seasons, plan: Id, stay: Stay): map<int, P.RateDay> {
    map d | stay.arrival <= d < stay.departure && Winner(seasons, plan, d).Some? ::
      Filled(seasons[Winner(seasons, plan, d).value].rate, seasons[Winner(seasons, plan, d).value].maxStay)
  }

  /** A night is loaded as its row has it, and a row with no longest stay sets no limit. */
  lemma LoadedNight(days: Days, plan: Id, stay: Stay, day: int)
    ensures var loaded := CompiledNights(days, plan, stay);
            && (day in loaded <==> stay.arrival <= day < stay.departure && (plan, day) in days)
            && (day in loaded ==>
                  var row := days[(plan, day)];
                  && loaded[day].maxStay == (match row.maxStay case Some(most) => most case None => 0)
                  && loaded[day] == row.rate.(maxStay := loaded[day].maxStay))
  {
  }

  lemma {:induction false} SameNights(x: map<int, P.RateDay>, y: map<int, P.RateDay>, arrival: int, nights: nat)
    requires forall d | arrival <= d < arrival + nights :: (d in x <==> d in y) && (d in x ==> x[d] == y[d])
    ensures P.StayDays(x, arrival, nights) == P.StayDays(y, arrival, nights)
  {
    if nights > 0 {
      SameNights(x, y, arrival, nights - 1);
      var day := arrival + (nights - 1);
      assert (day in x <==> day in y) && (day in x ==> x[day] == y[day]);
    }
  }

  /** A price reads no night outside the stay. */
  lemma PriceReadsOnlyTheStay(s: P.Snapshot, r: P.Request, other: map<int, P.RateDay>)
    requires forall d | r.stay.Covers(d) :: (d in s.days <==> d in other) && (d in s.days ==> s.days[d] == other[d])
    ensures P.Price(s, r) == P.Price(s.(days := other), r)
  {
    if r.Nights() > 0 {
      SameNights(s.days, other, r.stay.arrival, r.Nights());
    }
    assert P.Admit(s, r) == P.Admit(s.(days := other), r);
  }

  /** Pricing from the compiled calendar is pricing from the seasons, whatever the
      calendar held before and holds elsewhere. */
  lemma CalendarPricesTheSeasons(plans: map<Id, RatePlan>, seasons: Seasons, plan: Id, from: int, to: int,
                                 before: Days, after: Days, s: P.Snapshot, r: P.Request)
    requires PlansExist(plans, seasons)
    requires IsCompiled(Targets(plans, seasons, plan), plan, from, to, before, after)
    requires from <= r.stay.arrival && r.stay.departure <= to + 1
    ensures P.Price(s.(days := CompiledNights(after, plan, r.stay)), r)
         == P.Price(s.(days := SeasonNights(seasons, plan, r.stay)), r)
  {
    var compiled, direct := CompiledNights(after, plan, r.stay), SeasonNights(seasons, plan, r.stay);
    forall d | r.stay.Covers(d)
      ensures (d in compiled <==> d in direct) && (d in compiled ==> compiled[d] == direct[d])
    {
      assert RowAt(after, plan, d) == Targets(plans, seasons, plan)(d);
      TargetIffCovered(plans, seasons, plan, d);
      WinnerIffCovered(seasons, plan, d);
    }
    PriceReadsOnlyTheStay(s.(days := compiled), r, direct);
  }
}
