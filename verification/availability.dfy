/** How many units are free, and whether that number can be believed. */
module Availability {
  import opened Dates
  import opened Options
  import opened Inventory
  import opened Assignment
  import opened Occupancy
  import opened OccupancyInvariant

  /** The search's own amperage filter: unlike the candidate query it does not
      read a missing amperage as zero. */
  predicate SearchHasPower(u: Unit, amp: int) {
    amp == 0 || (u.electricityAmp.Some? && u.electricityAmp.value >= amp)
  }

  /** The units one category's row of the search counts as free. */
  function FreeUnits(units: map<Id, Unit>, rows: Rows, q: Query): set<Id> {
    set u | u in units && Suits(units[u], q) && SearchHasPower(units[u], q.electricityAmp) && Free(rows, u, q.stay)
  }

  function FreeCount(units: map<Id, Unit>, rows: Rows, q: Query): nat {
    |FreeUnits(units, rows, q)|
  }

  lemma SmallerUnlessSame(small: set<Id>, big: set<Id>)
    requires small <= big
    ensures |small| <= |big|
    ensures |small| == |big| ==> small == big
  {
    assert big == small + (big - small);
  }

  /** The count never promises a unit the candidate list lacks, and the two agree
      exactly when nobody asks for negative power from a pitch of unknown
      amperage. */
  lemma CountMatchesCandidates(units: map<Id, Unit>, rows: Rows, q: Query, listing: seq<Id>)
    requires Lists(listing, units)
    ensures FreeCount(units, rows, q) <= |Candidates(units, rows, q, listing)|
    ensures FreeCount(units, rows, q) == |Candidates(units, rows, q, listing)| <==>
              (q.electricityAmp >= 0 || forall u | u in Hosting(units, rows, q) :: units[u].electricityAmp.Some?)
  {
    CandidatesAreHosting(units, rows, q, listing);
    var counted, hosting := FreeUnits(units, rows, q), Hosting(units, rows, q);
    assert counted <= hosting;
    SmallerUnlessSame(counted, hosting);
    if u :| u in hosting && q.electricityAmp < 0 && units[u].electricityAmp.None? {
      assert u !in counted;
    } else {
      assert counted == hosting;
    }
  }

  /** One pitch, no amperage recorded, and a request for minus one ampere: the
      search offers nothing and the candidate list offers the pitch. */
  lemma NegativePowerDisagrees()
    ensures var pitch := Unit(0, true, [Stay(0, 10)], 0, 4, true, None, true, true, false);
            var q := Query(0, Stay(1, 2), 2, 0, -1, false);
            FreeCount(map[7 := pitch], map[], q) == 0 && |Candidates(map[7 := pitch], map[], q, [7])| == 1
  {
    var pitch := Unit(0, true, [Stay(0, 10)], 0, 4, true, None, true, true, false);
    var q := Query(0, Stay(1, 2), 2, 0, -1, false);
    assert FreeUnits(map[7 := pitch], map[], q) == {};
    forall n | 1 <= n < 2 ensures OpenOn(pitch, n) {
      assert pitch.seasons[0].Covers(n);
    }
    assert Hosting(map[7 := pitch], map[], q) == {7};
    CandidatesAreHosting(map[7 := pitch], map[], q, [7]);
  }

  // ---- what an undisturbed hold does ------------------------------------------------------

  /** A hold whose transaction nobody else's commits fall inside: it expires every
      stale hold of the category, reads its candidates from what is left, and
      inserts. */
  function Undisturbed(w: World, q: Query, listing: seq<Id>, token: Id, deadline: int, asOf: int): HoldCall {
    var swept := StaleIn(w.allocations, q.category, asOf);
    var cands := Candidates(w.units, Expire(w.allocations, swept, asOf), q, listing);
    HoldCall(q.category, q.stay, token, deadline, asOf, swept, IdsOf(cands))
  }

  /** It succeeds exactly when some unit could host the stay once stale holds are
      gone, and takes the least wasteful one. */
  lemma HoldTakesTheBest(w: World, q: Query, listing: seq<Id>, token: Id, deadline: int, asOf: int)
    requires Lists(listing, w.units) && q.stay.NonEmpty() && token !in w.allocations
    ensures var rows := Expire(w.allocations, StaleIn(w.allocations, q.category, asOf), asOf);
            var cands := Candidates(w.units, rows, q, listing);
            var outcome := DoHold(w, Undisturbed(w, q, listing, token, deadline, asOf)).1;
            && (outcome.Holding? <==> Hosting(w.units, rows, q) != {})
            && (outcome.Holding? <==>
                  exists id :: id in w.units && Free(rows, id, q.stay)
                    && Takes(w.units[id], q.category, q.stay, q.guests, q.pets, q.electricityAmp, q.accessible))
            && (outcome.Holding? ==>
                  && cands != [] && outcome.unit == cands[0].unitId
                  && IsBest(cands[0], cands, Need(q.guests, q.electricityAmp, q.accessible, false)))
            && (!outcome.Holding? ==> outcome == Refused(NoUnitAvailable))
  {
    var rows := Expire(w.allocations, StaleIn(w.allocations, q.category, asOf), asOf);
    var cands := Candidates(w.units, rows, q, listing);
    CandidatesAreHosting(w.units, rows, q, listing);
    forall id ensures id in Hosting(w.units, rows, q) <==>
        && id in w.units && Free(rows, id, q.stay)
        && Takes(w.units[id], q.category, q.stay, q.guests, q.pets, q.electricityAmp, q.accessible)
    {
      HostingTakes(w.units, rows, q, id);
    }
    if cands != [] {
      assert IdsOf(cands)[0] in Hosting(w.units, rows, q);
      ListedForTheGuest(w.units, rows, q, listing);
    }
  }

  lemma ExpiryOnlyAddsHosts(units: map<Id, Unit>, rows: Rows, ids: set<Id>, asOf: int, q: Query)
    ensures Hosting(units, rows, q) <= Hosting(units, Expire(rows, ids, asOf), q)
  {
    forall u | u in Hosting(units, rows, q) ensures Free(Expire(rows, ids, asOf), u, q.stay) {
      ReleasingKeepsFree(rows, Expire(rows, ids, asOf), u, q.stay);
    }
  }

  /** A positive count is a promise an undisturbed hold keeps; with no hold past
      its deadline, and no request for negative power, it is also the only way
      one can succeed. */
  lemma PositiveCountMeansHold(w: World, q: Query, listing: seq<Id>, token: Id, deadline: int, asOf: int)
    requires Lists(listing, w.units) && q.stay.NonEmpty() && token !in w.allocations
    ensures var outcome := DoHold(w, Undisturbed(w, q, listing, token, deadline, asOf)).1;
            && (FreeCount(w.units, w.allocations, q) > 0 ==> outcome.Holding?)
            && (StaleIn(w.allocations, q.category, asOf) == {} && q.electricityAmp >= 0 ==>
                  (outcome.Holding? <==> FreeCount(w.units, w.allocations, q) > 0))
  {
    var swept := StaleIn(w.allocations, q.category, asOf);
    var rows := Expire(w.allocations, swept, asOf);
    HoldTakesTheBest(w, q, listing, token, deadline, asOf);
    ExpiryOnlyAddsHosts(w.units, w.allocations, swept, asOf, q);
    CountMatchesCandidates(w.units, w.allocations, q, listing);
    CandidatesAreHosting(w.units, w.allocations, q, listing);
    if swept == {} {
      assert rows == w.allocations;
    }
    if FreeCount(w.units, w.allocations, q) > 0 {
      assert Hosting(w.units, w.allocations, q) != {};
    }
  }
}
