/** When each transaction succeeds, said without the code, and what it undoes. */
module OccupancyOutcomes {
  import opened Dates
  import opened Options
  import opened Inventory
  import opened Occupancy
  import opened OccupancyInvariant
  import opened OccupancyLaws
  import P = Pricing

  ghost predicate SomeFree(rows: Rows, candidates: seq<Id>, stay: Stay) {
    exists k :: 0 <= k < |candidates| && Free(rows, candidates[k], stay)
  }

  /** A hold is taken exactly when, stale holds gone, some candidate is free for
      nights that exist; its row is the only one added and clashes with none. */
  lemma HoldSucceedsExactlyWhen(w: World, c: HoldCall)
    requires c.token !in w.allocations
    ensures var (v, out) := Step(w, TakeHold(c));
            var rows := Expire(w.allocations, c.swept, c.asOf);
            && (out.Holding? <==> c.stay.NonEmpty() && SomeFree(rows, c.candidates, c.stay))
            && (out.Holding? ==>
                  && out.unit in c.candidates && Free(rows, out.unit, c.stay)
                  && v.allocations.Keys == w.allocations.Keys + {c.token}
                  && (forall i | i in rows :: v.allocations[i] == rows[i])
                  && Holds(v.allocations, c.token, v.allocations[c.token], c.deadline - 1)
                  && Occupies(v.allocations[c.token], out.unit, c.stay))
  {
    var rows := Expire(w.allocations, c.swept, c.asOf);
    if c.stay.NonEmpty() && FirstFree(rows, c.candidates, c.stay).Some? {
      var k := FirstFree(rows, c.candidates, c.stay).value;
      assert Free(rows, c.candidates[k], c.stay);
    }
  }

  /** Everything a confirmation needs besides somewhere to put the guest. */
  ghost predicate Confirmable(w: World, c: ConfirmCall) {
    && c.quoteId in w.quotes && c.now < w.quotes[c.quoteId].expires && c.input == w.quotes[c.quoteId].input
    && w.quotes[c.quoteId].quote.lines != []
    && c.bookingId !in w.bookings && c.allocationId !in w.allocations
    && exists k :: 0 <= k < 5 && k < |c.references| && c.references[k] !in References(w)
  }

  lemma {:induction false} ReferenceIsPicked(taken: set<string>, tries: seq<string>, left: nat)
    ensures PickReference(taken, tries, left).Some? <==>
              exists k :: 0 <= k < left && k < |tries| && tries[k] !in taken
    decreases left
  {
    if left > 0 && tries != [] {
      if tries[0] !in taken {
        assert tries[0] !in taken;
      } else {
        ReferenceIsPicked(taken, tries[1..], left - 1);
        if k :| 0 <= k < left - 1 && k < |tries[1..]| && tries[1..][k] !in taken {
          assert tries[k + 1] !in taken;
        }
        if k :| 0 <= k < left && k < |tries| && tries[k] !in taken {
          assert tries[1..][k - 1] !in taken;
        }
      }
    }
  }

  lemma NothingElseRefuses(w: World, c: ConfirmCall)
    ensures ConfirmRefusal(w, c) == None <==> Confirmable(w, c)
  {
    ReferenceIsPicked(References(w), c.references, REFERENCE_ATTEMPTS);
  }

  lemma ClaimsWhenPossible(rows: Rows, c: ConfirmCall)
    ensures ClaimForBooking(rows, c).Claimed? <==>
              Convertible(rows, c.holdToken, c.input.stay, c.asOf) || SomeFree(rows, c.candidates, c.input.stay)
  {
    if FirstFree(rows, c.candidates, c.input.stay).Some? {
      var k := FirstFree(rows, c.candidates, c.input.stay).value;
      assert Free(rows, c.candidates[k], c.input.stay);
    }
  }

  /** Under a fresh key a booking is made exactly when the quote is live and is for
      this stay, a reference can be had, and either the hold is still good for these
      nights or some candidate is free; and only want of a place is reported as a
      hold that has gone. */
  lemma ConfirmSucceedsExactlyWhen(w: World, c: ConfirmCall)
    requires c.key !in w.byKey
    ensures var out := Step(w, Confirm(c)).1;
            var rows := Expire(w.allocations, c.swept, c.asOf);
            var placed := Convertible(rows, c.holdToken, c.input.stay, c.asOf)
                          || SomeFree(rows, c.candidates, c.input.stay);
            && (out.Booked? <==> Confirmable(w, c) && placed)
            && (Confirmable(w, c) && !placed ==> out == Refused(HoldExpired))
            && (out == Refused(HoldExpired) ==> Confirmable(w, c))
  {
    NothingElseRefuses(w, c);
    ClaimsWhenPossible(Expire(w.allocations, c.swept, c.asOf), c);
  }

  // ---- the front desk follows the log ------------------------------------------------------------

  /** The event a desk action would append, and where the log says it would lead. */
  ghost predicate Legal(w: World, b: Id, e: What) {
    b in w.bookings && Then(Replay(EventsOf(w.events, b)), e) != Impossible
  }

  lemma DeskOutcome(w: World, b: Id, from: State, to: State, pin: bool, e: What, place: Place)
    requires DeskMove(from, to, pin, e)
    requires b in w.bookings && b in w.owner && w.owner[b] in w.allocations
    requires place == At(w.allocations[w.owner[b]].state, w.allocations[w.owner[b]].unit)
    ensures var (v, out) := Transition(w, b, from, to, pin, e);
            && (out == Done <==> Then(place, e) != Impossible)
            && (out == Done ==> v.events == w.events + [Event(b, e)])
            && (out == Done || out == Refused(WrongState))
  {
  }

  /** The transition is made exactly when the log allows its event next, and then logs it. */
  ghost predicate FollowsTheLog(w: World, b: Id, from: State, to: State, pin: bool, e: What) {
    var (v, out) := Transition(w, b, from, to, pin, e);
    && (out == Done <==> Legal(w, b, e))
    && (out == Done ==> EventsOf(v.events, b) == EventsOf(w.events, b) + [e])
    && (out == Refused(NotFound) <==> b !in w.bookings)
    && (out == Done || out == Refused(NotFound) || out == Refused(WrongState))
  }

  /** A guest can be checked in, out or cancelled exactly when the booking's log
      allows it next; a refusal says whether the booking exists. */
  lemma DeskFollowsTheLog(w: World, b: Id, from: State, to: State, pin: bool, e: What)
    requires Inv(w) && DeskMove(from, to, pin, e)
    ensures FollowsTheLog(w, b, from, to, pin, e)
  {
    if b in w.bookings {
      LogPlaces(w, b);
      PlacedDesk(w, b, from, to, pin, e);
    } else {
      UnknownIsNotFound(w, b, from, to, pin, e);
    }
  }

  lemma UnknownIsNotFound(w: World, b: Id, from: State, to: State, pin: bool, e: What)
    requires b !in w.bookings
    ensures FollowsTheLog(w, b, from, to, pin, e)
  {
  }

  lemma PlacedDesk(w: World, b: Id, from: State, to: State, pin: bool, e: What)
    requires b in w.bookings && Placed(w, b) && DeskMove(from, to, pin, e)
    ensures FollowsTheLog(w, b, from, to, pin, e)
  {
    DeskOutcome(w, b, from, to, pin, e, Replay(EventsOf(w.events, b)));
    EventsAppend(w.events, Event(b, e), b);
  }

  /** An active unit of the same category with nobody else in it for the stay. */
  ghost predicate CanMoveTo(units: map<Id, Unit>, rows: Rows, id: Id, unit: Id)
    requires id in rows
  {
    && unit in units && units[unit].active && units[unit].category == rows[id].category
    && forall i | i in rows && i != id :: !Occupies(rows[i], unit, rows[id].stay)
  }

  lemma MoveAllowedMeans(rows: Rows, id: Id, unit: Id)
    requires id in rows
    ensures MoveAllowed(rows, id, unit) <==>
              forall i | i in rows && i != id :: !Occupies(rows[i], unit, rows[id].stay)
  {
    assert forall i | i in rows && i != id :: i in rows - {id} && (rows - {id})[i] == rows[i];
  }

  /** A booking the log has at this place moves exactly when the log allows a move
      from where the guest is and the target can take the stay; only its unit
      changes. */
  ghost predicate MovesFrom(w: World, b: Id, unit: Id, seenOn: Id, place: Place) {
    && b in w.owner && w.owner[b] in w.allocations
    && var id := w.owner[b];
       var (v, out) := Step(w, Reassign(b, unit, seenOn));
       && (out == Done <==>
             && Then(place, OnReassigned(seenOn, unit)) != Impossible
             && CanMoveTo(w.units, w.allocations, id, unit))
       && (out == Done ==> v.allocations == w.allocations[id := w.allocations[id].(unit := unit)])
       && (out == Done || out == Refused(WrongState) || out == Refused(NoUnitAvailable))
  }

  lemma MoveOutcome(w: World, b: Id, unit: Id, seenOn: Id, place: Place)
    requires b in w.bookings && b in w.owner && w.owner[b] in w.allocations
    requires place == At(w.allocations[w.owner[b]].state, w.allocations[w.owner[b]].unit)
    ensures MovesFrom(w, b, unit, seenOn, place)
  {
    MoveAllowedMeans(w.allocations, w.owner[b], unit);
  }

  lemma MoveFollowsTheLog(w: World, b: Id, unit: Id, seenOn: Id)
    requires Inv(w)
    ensures b in w.bookings ==> MovesFrom(w, b, unit, seenOn, Replay(EventsOf(w.events, b)))
    ensures b !in w.bookings ==> Step(w, Reassign(b, unit, seenOn)).1 == Refused(NotFound)
  {
    if b in w.bookings {
      LogPlaces(w, b);
      MoveOutcome(w, b, unit, seenOn, Replay(EventsOf(w.events, b)));
    }
  }

  lemma DroppedIsFree(rows: Rows, id: Id, after: Allocation)
    requires NoOverlap(rows) && id in rows && Live(rows[id].state) && !Live(after.state)
    ensures Free(rows[id := after], rows[id].unit, rows[id].stay)
  {
    var out := rows[id := after];
    forall i | i in out ensures !Occupies(out[i], rows[id].unit, rows[id].stay) {
      if i != id {
        assert !Occupies(rows[i], rows[id].unit, rows[id].stay);
      }
    }
  }

  /** Cancelling gives the nights back: nothing occupies them any more. */
  lemma CancelFreesThePitch(w: World, b: Id)
    requires NoOverlap(w.allocations)
    ensures var (v, out) := Transition(w, b, State.Confirmed, Cancelled, false, OnCancelled);
            out == Done ==>
              && b in w.owner && w.owner[b] in w.allocations
              && Free(v.allocations, w.allocations[w.owner[b]].unit, w.allocations[w.owner[b]].stay)
  {
    if b in w.owner && w.owner[b] in w.allocations && w.allocations[w.owner[b]].state == State.Confirmed {
      var id := w.owner[b];
      DroppedIsFree(w.allocations, id, w.allocations[id].(state := Cancelled));
    }
  }

  /** A guest who checked in, and one who has checked out, keeps every night of the stay:
      nothing else can be put on the unit for any of them. */
  lemma StayedNightsAreKept(w: World, b: Id, from: State, to: State, pin: bool, e: What, night: int)
    requires DeskMove(from, to, pin, e) && to != Cancelled
    ensures var (v, out) := Transition(w, b, from, to, pin, e);
            out == Done ==>
              && b in w.owner && w.owner[b] in w.allocations
              && var row := w.allocations[w.owner[b]];
              row.stay.arrival <= night < row.stay.departure ==> Taken(v.allocations, row.unit, night)
  {
    var (v, out) := Transition(w, b, from, to, pin, e);
    if out == Done {
      assert v.allocations[w.owner[b]].state == to;
    }
  }

  // ---- what one transaction undoes of another --------------------------------------------------------

  /** Releasing a hold at once leaves every unit as free as if it had never been
      taken. */
  lemma ReleaseUndoesHold(w: World, c: HoldCall, unit: Id, stay: Stay)
    requires Step(w, TakeHold(c)).1.Holding?
    ensures var after := Step(Step(w, TakeHold(c)).0, Action.ReleaseHold(c.token)).0.allocations;
            Free(after, unit, stay) <==> Free(Expire(w.allocations, c.swept, c.asOf), unit, stay)
  {
    ReleasedIsFree(w, c, unit, stay);
  }

  lemma ReleasedIsFree(w: World, c: HoldCall, unit: Id, stay: Stay)
    requires DoHold(w, c).1.Holding?
    ensures var after := DoRelease(DoHold(w, c).0, c.token).0.allocations;
            Free(after, unit, stay) <==> Free(Expire(w.allocations, c.swept, c.asOf), unit, stay)
  {
    var rows := Expire(w.allocations, c.swept, c.asOf);
    var held := DoHold(w, c).0.allocations;
    var after := DoRelease(DoHold(w, c).0, c.token).0.allocations;
    assert after == held[c.token := held[c.token].(state := Expired)];
    assert forall i | i in rows :: i != c.token && after[i] == rows[i];
    assert forall i | i in after && i != c.token :: i in rows;
  }

  /** A block goes in exactly where nothing stands, and taking it out restores every
      table. */
  lemma DeleteUndoesCreate(w: World, block: Id, unit: Id, stay: Stay)
    requires block !in w.allocations
    ensures var (v, out) := Step(w, CreateBlock(block, unit, stay));
            && (out == Done <==> unit in w.units && stay.NonEmpty() && Free(w.allocations, unit, stay))
            && (out == Done ==> !Free(v.allocations, unit, stay) && Step(v, DeleteBlock(block)) == (w, Done))
  {
    var (v, out) := DoCreateBlock(w, block, unit, stay);
    if out == Done {
      assert Occupies(v.allocations[block], unit, stay);
      assert v.allocations - {block} == w.allocations;
    }
  }
}
