/** What every committed transaction keeps, and so every run. */
module OccupancyInvariant {
  import opened Dates
  import opened Options
  import opened Inventory
  import opened Occupancy
  import P = Pricing
  import B = PricingBalance

  // ---- the environment ------------------------------------------------------------------

  ghost predicate OfCategory(w: World, candidates: seq<Id>, category: Id) {
    forall k | 0 <= k < |candidates| ::
      candidates[k] in w.units && w.units[candidates[k]].category == category
  }

  /** Which transactions can commit: now() is a time already passed, the candidate
      lists, however stale, came from a query on the category, and a price was made
      from a snapshot of the category and campaign asked for. */
  ghost predicate Possible(w: World, a: Action) {
    match a
    case TakeHold(c) => c.asOf <= w.clock && OfCategory(w, c.candidates, c.category)
    case SweepHolds(asOf) => asOf <= w.clock
    case PruneQuotes(asOf) => asOf <= w.clock
    case CreateQuote(_, category, request, _, _, snapshot, _) =>
      snapshot.category == category && snapshot.campaignCode == request.campaign
    case Confirm(c) => c.asOf <= w.clock && OfCategory(w, c.candidates, c.input.category)
    case _ => true
  }

  ghost predicate PossibleRun(w: World, actions: seq<Action>) {
    forall k | 0 <= k < |actions| :: Possible(Run(w, actions[..k]), actions[k])
  }

  // ---- rows -----------------------------------------------------------------------------------

  /** The CHECK constraints of the row, and the states each kind can reach. */
  ghost predicate RowOk(units: map<Id, Unit>, a: Allocation) {
    && a.stay.NonEmpty()
    && a.unit in units && units[a.unit].category == a.category
    && (a.kind == Hold <==> a.deadline.Some?)
    && (a.kind == Booking <==> a.booking.Some?)
    && (a.kind == Hold ==> a.state == Held || a.state == Expired)
    && (a.kind == Block ==> a.state == State.Confirmed)
    && (a.kind == Booking ==>
          a.state == State.Confirmed || a.state == CheckedIn || a.state == CheckedOut || a.state == Cancelled)
    && (a.pinned <==> a.state == CheckedIn || a.state == CheckedOut)
  }

  ghost predicate RowsOk(units: map<Id, Unit>, rows: Rows) {
    forall i | i in rows :: RowOk(units, rows[i])
  }

  /** One row per booking, one booking per booked row, on the dates agreed. */
  ghost predicate Linked(rows: Rows, owner: map<Id, Id>, bookings: map<Id, BookingRow>) {
    && owner.Keys == bookings.Keys
    && (forall b | b in owner ::
          && owner[b] in rows
          && rows[owner[b]].booking == Some(b)
          && rows[owner[b]].stay == bookings[b].input.stay)
    && (forall i | i in rows && rows[i].booking.Some? ::
          rows[i].booking.value in owner && owner[rows[i].booking.value] == i)
  }

  /** A key names one booking and a reference names one booking. */
  ghost predicate Named(bookings: map<Id, BookingRow>, byKey: map<string, Id>) {
    && (forall b | b in bookings :: bookings[b].key in byKey && byKey[bookings[b].key] == b)
    && (forall k | k in byKey :: byKey[k] in bookings && bookings[byKey[k]].key == k)
    && (forall b, c | b in bookings && c in bookings && b != c ::
          bookings[b].reference != bookings[c].reference)
  }

  ghost predicate QuoteOk(q: StoredQuote) {
    B.BalancesThreeWays(q.quote) && q.quote.lines != [] && q.input.stay.NonEmpty()
  }

  ghost predicate QuotesOk(quotes: map<Id, StoredQuote>) {
    forall q | q in quotes :: QuoteOk(quotes[q])
  }

  /** Everything on a booking is what was quoted, copied whole. */
  ghost predicate FrozenRow(row: BookingRow, lines: seq<P.Line>, q: StoredQuote) {
    && row.input == q.input && lines == q.quote.lines
    && row.grossMinor == q.quote.totals.grossMinor
    && row.netMinor == q.quote.totals.netMinor
    && row.vatMinor == q.quote.totals.vatMinor
  }

  ghost predicate Frozen(bookings: map<Id, BookingRow>, lines: map<Id, seq<P.Line>>,
                         quotes: map<Id, StoredQuote>, owed: set<Id>)
  {
    && lines.Keys == bookings.Keys && owed == bookings.Keys
    && forall b | b in bookings ::
         bookings[b].quoteId in quotes && FrozenRow(bookings[b], lines[b], quotes[bookings[b].quoteId])
  }

  // ---- the event log ------------------------------------------------------------------------------

  function EventsOf(events: seq<Event>, b: Id): seq<What> {
    if events == [] then []
    else
      var n := |events| - 1;
      EventsOf(events[..n], b) + if events[n].booking == b then [events[n].what] else []
  }

  /** Where a booking stands. */
  datatype Place = Nowhere | At(state: State, unit: Id) | Impossible

  /** What one event does to a booking, if it may happen there at all. */
  function Then(p: Place, e: What): Place {
    match (p, e)
    case (Nowhere, OnConfirmed(u)) => At(State.Confirmed, u)
    case (At(Confirmed, u), OnCheckedIn) => At(CheckedIn, u)
    case (At(CheckedIn, u), OnCheckedOut) => At(CheckedOut, u)
    case (At(Confirmed, u), OnCancelled) => At(Cancelled, u)
    case (At(s, _), OnReassigned(_, to)) =>
      if s == State.Confirmed || s == CheckedIn then At(s, to) else Impossible
    case _ => Impossible
  }

  function Replay(events: seq<What>): Place {
    if events == [] then Nowhere else Then(Replay(events[..|events| - 1]), events[|events| - 1])
  }

  /** Replaying a booking's events gives exactly where its row stands. */
  ghost predicate Told(rows: Rows, owner: map<Id, Id>, events: seq<Event>) {
    && (forall b | b in owner && owner[b] in rows ::
          Replay(EventsOf(events, b)) == At(rows[owner[b]].state, rows[owner[b]].unit))
    && (forall k | 0 <= k < |events| :: events[k].booking in owner)
  }

  ghost predicate Core(w: World) {
    && RowsOk(w.units, w.allocations)
    && NoOverlap(w.allocations)
    && Linked(w.allocations, w.owner, w.bookings)
    && Named(w.bookings, w.byKey)
    && QuotesOk(w.quotes)
    && Frozen(w.bookings, w.lines, w.quotes, w.owed)
    && Told(w.allocations, w.owner, w.events)
  }

  lemma SameWorld(w: World, v: World)
    requires Core(w) && v == w
    ensures Core(v)
  {
  }

  // ---- row changes, one kind at a time ---------------------------------------------------------------

  lemma EventsAppend(events: seq<Event>, e: Event, b: Id)
    ensures EventsOf(events + [e], b) == EventsOf(events, b) + if e.booking == b then [e.what] else []
  {
    assert (events + [e])[..|events|] == events;
  }

  lemma ReplayAppend(events: seq<What>, e: What)
    ensures Replay(events + [e]) == Then(Replay(events), e)
  {
    assert (events + [e])[..|events|] == events;
  }

  lemma {:induction false} NoEventsYet(events: seq<Event>, b: Id)
    requires forall k | 0 <= k < |events| :: events[k].booking != b
    ensures EventsOf(events, b) == []
  {
    if events != [] {
      NoEventsYet(events[..|events| - 1], b);
    }
  }

  // ---- changing rows no booking owns ----------------------------------------------------------------

  /** The rows bookings own are the same before and after. */
  ghost predicate SameBooked(before: Rows, after: Rows) {
    && (forall i | i in before && before[i].booking.Some? :: i in after && after[i] == before[i])
    && (forall i | i in after && after[i].booking.Some? :: i in before && after[i] == before[i])
  }

  lemma SameBookedKeepsLinks(before: Rows, after: Rows, owner: map<Id, Id>, bookings: map<Id, BookingRow>,
                             events: seq<Event>)
    requires SameBooked(before, after) && Linked(before, owner, bookings) && Told(before, owner, events)
    ensures Linked(after, owner, bookings) && Told(after, owner, events)
  {
    forall b | b in owner ensures owner[b] in after && after[owner[b]] == before[owner[b]] {
      assert before[owner[b]].booking == Some(b);
    }
  }

  lemma UnbookedChange(w: World, rows: Rows)
    requires Core(w) && SameBooked(w.allocations, rows)
    requires RowsOk(w.units, rows) && NoOverlap(rows)
    ensures Core(w.(allocations := rows))
  {
    SameBookedKeepsLinks(w.allocations, rows, w.owner, w.bookings, w.events);
  }

  /** Expiring holds releases pitches and touches nothing else. */
  lemma ExpireKeeps(units: map<Id, Unit>, rows: Rows, ids: set<Id>, asOf: int)
    requires RowsOk(units, rows) && NoOverlap(rows)
    ensures var out := Expire(rows, ids, asOf);
            RowsOk(units, out) && NoOverlap(out) && SameBooked(rows, out) && OnlyReleases(rows, out)
  {
    ReleasingKeepsNoOverlap(rows, Expire(rows, ids, asOf));
    forall i | i in rows && rows[i].booking.Some? ensures rows[i].kind != Hold {
      assert RowOk(units, rows[i]);
    }
    forall i | i in rows ensures RowOk(units, Expire(rows, ids, asOf)[i]) {
      assert RowOk(units, rows[i]);
    }
  }

  lemma SweepKeeps(w: World, asOf: int)
    requires Core(w)
    ensures Core(w.(allocations := Expire(w.allocations, AllStale(w.allocations, asOf), asOf)))
  {
    ExpireKeeps(w.units, w.allocations, AllStale(w.allocations, asOf), asOf);
    UnbookedChange(w, Expire(w.allocations, AllStale(w.allocations, asOf), asOf));
  }

  /** Placing a fresh row that no booking owns where the unit is free. */
  lemma InsertKeeps(units: map<Id, Unit>, before: Rows, rows: Rows, id: Id, a: Allocation)
    requires RowsOk(units, rows) && NoOverlap(rows) && SameBooked(before, rows)
    requires id !in rows && id !in before && RowOk(units, a) && a.booking == None && Free(rows, a.unit, a.stay)
    ensures RowsOk(units, rows[id := a]) && NoOverlap(rows[id := a]) && SameBooked(before, rows[id := a])
  {
    assert rows - {id} == rows;
    PlacingKeepsNoOverlap(rows, id, a);
  }

  lemma HoldKeeps(w: World, c: HoldCall)
    requires Core(w) && OfCategory(w, c.candidates, c.category)
    ensures Core(DoHold(w, c).0)
  {
    var rows := Expire(w.allocations, c.swept, c.asOf);
    ExpireKeeps(w.units, w.allocations, c.swept, c.asOf);
    if DoHold(w, c).1.Holding? {
      var k := FirstFree(rows, c.candidates, c.stay).value;
      var a := HoldRow(c, c.candidates[k]);
      InsertKeeps(w.units, w.allocations, rows, c.token, a);
      UnbookedChange(w, rows[c.token := a]);
    }
  }

  /** A row no booking owns changes state without becoming live. */
  lemma RestateKeeps(units: map<Id, Unit>, rows: Rows, id: Id, a: Allocation)
    requires RowsOk(units, rows) && NoOverlap(rows)
    requires id in rows && rows[id].booking == None == a.booking && RowOk(units, a)
    requires a.unit == rows[id].unit && a.stay == rows[id].stay && (Live(a.state) ==> Live(rows[id].state))
    ensures RowsOk(units, rows[id := a]) && NoOverlap(rows[id := a]) && SameBooked(rows, rows[id := a])
  {
    assert OnlyReleases(rows, rows[id := a]);
    ReleasingKeepsNoOverlap(rows, rows[id := a]);
  }

  lemma ReleaseKeeps(w: World, token: Id)
    requires Core(w)
    ensures Core(DoRelease(w, token).0)
  {
    var after := DoRelease(w, token).0.allocations;
    if after != w.allocations {
      assert RowOk(w.units, w.allocations[token]);
      RestateKeeps(w.units, w.allocations, token, after[token]);
      UnbookedChange(w, after);
    }
  }

  lemma CreateBlockKeeps(w: World, block: Id, unit: Id, stay: Stay)
    requires Core(w)
    ensures Core(DoCreateBlock(w, block, unit, stay).0)
  {
    var after := DoCreateBlock(w, block, unit, stay).0.allocations;
    if DoCreateBlock(w, block, unit, stay).1.Done? {
      InsertKeeps(w.units, w.allocations, w.allocations, block, after[block]);
      UnbookedChange(w, after);
    }
  }

  lemma RemoveKeeps(units: map<Id, Unit>, rows: Rows, id: Id)
    requires RowsOk(units, rows) && NoOverlap(rows) && id in rows && rows[id].booking == None
    ensures RowsOk(units, rows - {id}) && NoOverlap(rows - {id}) && SameBooked(rows, rows - {id})
  {
    assert OnlyReleases(rows, rows - {id});
    ReleasingKeepsNoOverlap(rows, rows - {id});
  }

  lemma DeleteBlockKeeps(w: World, block: Id)
    requires Core(w)
    ensures Core(DoDeleteBlock(w, block).0)
  {
    if DoDeleteBlock(w, block).1.Done? {
      assert RowOk(w.units, w.allocations[block]);
      RemoveKeeps(w.units, w.allocations, block);
      UnbookedChange(w, w.allocations - {block});
    }
  }

  // ---- changing the row one booking owns ----------------------------------------------------------------

  /** What the desk may change of a booked row. */
  ghost predicate DeskChange(a: Allocation, after: Allocation, e: What) {
    && after == a.(state := after.state, unit := after.unit, pinned := after.pinned)
    && Then(At(a.state, a.unit), e) == At(after.state, after.unit)
  }

  lemma DeskKeepsTold(rows: Rows, owner: map<Id, Id>, bookings: map<Id, BookingRow>, events: seq<Event>,
                      b: Id, after: Allocation, e: What)
    requires Linked(rows, owner, bookings) && Told(rows, owner, events)
    requires b in owner && DeskChange(rows[owner[b]], after, e)
    ensures Told(rows[owner[b] := after], owner, events + [Event(b, e)])
  {
    var out, log := rows[owner[b] := after], events + [Event(b, e)];
    forall c | c in owner && owner[c] in out
      ensures Replay(EventsOf(log, c)) == At(out[owner[c]].state, out[owner[c]].unit)
    {
      OneMoreEvent(events, b, e, c);
      if c != b {
        assert rows[owner[c]].booking == Some(c) && rows[owner[b]].booking == Some(b);
      }
    }
  }

  lemma OneMoreEvent(events: seq<Event>, b: Id, e: What, c: Id)
    ensures Replay(EventsOf(events + [Event(b, e)], c))
         == if c == b then Then(Replay(EventsOf(events, c)), e) else Replay(EventsOf(events, c))
  {
    EventsAppend(events, Event(b, e), c);
    if c == b {
      ReplayAppend(EventsOf(events, b), e);
    } else {
      assert EventsOf(events, c) + [] == EventsOf(events, c);
    }
  }

  lemma DeskKeepsRows(units: map<Id, Unit>, rows: Rows, owner: map<Id, Id>, bookings: map<Id, BookingRow>,
                      b: Id, after: Allocation, e: What)
    requires RowsOk(units, rows) && Linked(rows, owner, bookings) && RowOk(units, after)
    requires b in owner && DeskChange(rows[owner[b]], after, e)
    ensures RowsOk(units, rows[owner[b] := after]) && Linked(rows[owner[b] := after], owner, bookings)
  {
  }

  lemma DeskChangeKeeps(w: World, b: Id, after: Allocation, e: What)
    requires Core(w) && b in w.bookings && DeskChange(w.allocations[w.owner[b]], after, e)
    requires RowOk(w.units, after) && NoOverlap(w.allocations[w.owner[b] := after])
    ensures Core(w.(allocations := w.allocations[w.owner[b] := after], events := w.events + [Event(b, e)]))
  {
    DeskKeepsRows(w.units, w.allocations, w.owner, w.bookings, b, after, e);
    DeskKeepsTold(w.allocations, w.owner, w.bookings, w.events, b, after, e);
  }

  /** The three transitions reception can drive. */
  ghost predicate DeskMove(from: State, to: State, pin: bool, e: What) {
    || (from == State.Confirmed && to == CheckedIn && pin && e == OnCheckedIn)
    || (from == CheckedIn && to == CheckedOut && !pin && e == OnCheckedOut)
    || (from == State.Confirmed && to == Cancelled && !pin && e == OnCancelled)
  }

  lemma MovedRow(units: map<Id, Unit>, rows: Rows, id: Id, from: State, to: State, pin: bool, e: What)
    requires RowsOk(units, rows) && NoOverlap(rows) && DeskMove(from, to, pin, e)
    requires id in rows && rows[id].kind == Booking && rows[id].state == from
    ensures var after := rows[id].(state := to, pinned := rows[id].pinned || pin);
            RowOk(units, after) && NoOverlap(rows[id := after]) && DeskChange(rows[id], after, e)
  {
    var after := rows[id].(state := to, pinned := rows[id].pinned || pin);
    assert RowOk(units, rows[id]);
    assert OnlyReleases(rows, rows[id := after]);
    ReleasingKeepsNoOverlap(rows, rows[id := after]);
  }

  lemma OwnedIsBooked(w: World, b: Id)
    requires Core(w)
    ensures b in w.bookings ==>
              && b in w.owner && w.owner[b] in w.allocations
              && w.allocations[w.owner[b]].kind == Booking && RowOk(w.units, w.allocations[w.owner[b]])
  {
    if b in w.bookings {
      assert RowOk(w.units, w.allocations[w.owner[b]]);
    }
  }

  lemma TransitionKeeps(w: World, b: Id, from: State, to: State, pin: bool, e: What)
    requires Core(w) && DeskMove(from, to, pin, e)
    ensures Core(Transition(w, b, from, to, pin, e).0)
  {
    var v := Transition(w, b, from, to, pin, e).0;
    if Transition(w, b, from, to, pin, e).1.Done? {
      OwnedIsBooked(w, b);
      var id := w.owner[b];
      var after := w.allocations[id].(state := to, pinned := w.allocations[id].pinned || pin);
      MovedRow(w.units, w.allocations, id, from, to, pin, e);
      DeskChangeKeeps(w, b, after, e);
      SameWorld(w.(allocations := w.allocations[id := after], events := w.events + [Event(b, e)]), v);
    } else {
      SameWorld(w, v);
    }
  }

  lemma MovedUnit(units: map<Id, Unit>, rows: Rows, id: Id, unit: Id)
    requires RowsOk(units, rows) && NoOverlap(rows) && id in rows
    requires rows[id].state == State.Confirmed || rows[id].state == CheckedIn
    requires SameCategory(units, unit, rows[id]) && MoveAllowed(rows, id, unit)
    ensures var after := rows[id].(unit := unit);
            RowOk(units, after) && NoOverlap(rows[id := after])
            && forall seenOn :: DeskChange(rows[id], after, OnReassigned(seenOn, unit))
  {
    assert RowOk(units, rows[id]);
    PlacingKeepsNoOverlap(rows, id, rows[id].(unit := unit));
  }

  lemma MovedKeeps(w: World, b: Id, unit: Id, seenOn: Id)
    requires Core(w) && b in w.bookings && SameCategory(w.units, unit, w.allocations[w.owner[b]])
    requires var s := w.allocations[w.owner[b]].state; s == State.Confirmed || s == CheckedIn
    requires MoveAllowed(w.allocations, w.owner[b], unit)
    ensures Core(Moved(w, b, w.owner[b], unit, seenOn))
  {
    var id := w.owner[b];
    MovedUnit(w.units, w.allocations, id, unit);
    DeskChangeKeeps(w, b, w.allocations[id].(unit := unit), OnReassigned(seenOn, unit));
  }

  /** What a move that was made went through. */
  lemma MoveMeans(w: World, b: Id, unit: Id, seenOn: Id)
    ensures var (v, out) := DoReassign(w, b, unit, seenOn);
            if out.Done? then
              && b in w.bookings && b in w.owner && w.owner[b] in w.allocations
              && var a := w.allocations[w.owner[b]];
              && (a.state == State.Confirmed || a.state == CheckedIn) && SameCategory(w.units, unit, a)
              && MoveAllowed(w.allocations, w.owner[b], unit) && v == Moved(w, b, w.owner[b], unit, seenOn)
            else v == w
  {
  }

  lemma ReassignKeeps(w: World, b: Id, unit: Id, seenOn: Id)
    requires Core(w)
    ensures Core(DoReassign(w, b, unit, seenOn).0)
  {
    MoveMeans(w, b, unit, seenOn);
    if DoReassign(w, b, unit, seenOn).1.Done? {
      MovedKeeps(w, b, unit, seenOn);
      SameWorld(Moved(w, b, w.owner[b], unit, seenOn), DoReassign(w, b, unit, seenOn).0);
    } else {
      SameWorld(w, DoReassign(w, b, unit, seenOn).0);
    }
  }

  // ---- confirming ---------------------------------------------------------------------------------------

  /** One row became, or was added as, the booking's occupancy; it clashes with
      nothing and the other rows are as they were. */
  ghost predicate ClaimedOne(rows: Rows, claimed: Claimed, c: ConfirmCall) {
    && claimed.Claimed? && claimed.id in claimed.rows
    && claimed.rows == rows[claimed.id := claimed.rows[claimed.id]]
    && (claimed.id in rows ==> rows[claimed.id].booking == None)
    && var a := claimed.rows[claimed.id];
       && a.kind == Booking && a.state == State.Confirmed && a.deadline == None
       && a.booking == Some(c.bookingId) && a.stay == c.input.stay && !a.pinned
  }

  lemma ClaimIsOne(units: map<Id, Unit>, rows: Rows, c: ConfirmCall)
    requires RowsOk(units, rows) && NoOverlap(rows) && c.allocationId !in rows && c.input.stay.NonEmpty()
    requires forall k | 0 <= k < |c.candidates| ::
               c.candidates[k] in units && units[c.candidates[k]].category == c.input.category
    ensures var claimed := ClaimForBooking(rows, c);
            claimed.Claimed? ==>
              ClaimedOne(rows, claimed, c) && NoOverlap(claimed.rows) && RowsOk(units, claimed.rows)
  {
    var claimed := ClaimForBooking(rows, c);
    if Convertible(rows, c.holdToken, c.input.stay, c.asOf) {
      assert RowOk(units, rows[c.holdToken.value]);
      assert OnlyReleases(rows, claimed.rows);
      ReleasingKeepsNoOverlap(rows, claimed.rows);
    } else if claimed.Claimed? {
      var k := FirstFree(rows, c.candidates, c.input.stay).value;
      assert rows - {c.allocationId} == rows;
      PlacingKeepsNoOverlap(rows, c.allocationId,
                            BookedRow(c.input.category, c.candidates[k], c.input.stay, c.bookingId));
    }
  }

  lemma ConfirmKeepsLinks(rows: Rows, owner: map<Id, Id>, bookings: map<Id, BookingRow>,
                          claimed: Claimed, c: ConfirmCall, row: BookingRow)
    requires Linked(rows, owner, bookings) && ClaimedOne(rows, claimed, c)
    requires c.bookingId !in bookings && row.input == c.input
    ensures Linked(claimed.rows, owner[c.bookingId := claimed.id], bookings[c.bookingId := row])
  {
    forall b | b in owner ensures owner[b] != claimed.id {
      assert rows[owner[b]].booking == Some(b);
    }
  }

  lemma ConfirmKeepsTold(rows: Rows, owner: map<Id, Id>, bookings: map<Id, BookingRow>, events: seq<Event>,
                         claimed: Claimed, c: ConfirmCall)
    requires Linked(rows, owner, bookings) && Told(rows, owner, events)
    requires ClaimedOne(rows, claimed, c) && c.bookingId !in owner
    ensures Told(claimed.rows, owner[c.bookingId := claimed.id],
                 events + [Event(c.bookingId, OnConfirmed(claimed.rows[claimed.id].unit))])
  {
    var e := Event(c.bookingId, OnConfirmed(claimed.rows[claimed.id].unit));
    var index := owner[c.bookingId := claimed.id];
    forall b | b in index && index[b] in claimed.rows
      ensures Replay(EventsOf(events + [e], b)) == At(claimed.rows[index[b]].state, claimed.rows[index[b]].unit)
    {
      EventsAppend(events, e, b);
      if b == c.bookingId {
        NoEventsYet(events, b);
        assert [] + [e.what] == [e.what];
        ReplayAppend([], e.what);
      } else {
        assert rows[owner[b]].booking == Some(b);
        assert EventsOf(events, b) + [] == EventsOf(events, b);
      }
    }
  }

  lemma ConfirmKeepsNames(w: World, c: ConfirmCall)
    requires Named(w.bookings, w.byKey) && c.key !in w.byKey && ConfirmRefusal(w, c) == None
    ensures Named(w.bookings[c.bookingId := NewBooking(w, c)], w.byKey[c.key := c.bookingId])
  {
    forall b | b in w.bookings ensures w.bookings[b].reference != NewBooking(w, c).reference {
      assert w.bookings[b].reference in References(w);
    }
  }

  lemma ConfirmKeepsFrozen(w: World, c: ConfirmCall)
    requires Frozen(w.bookings, w.lines, w.quotes, w.owed) && ConfirmRefusal(w, c) == None
    ensures Frozen(w.bookings[c.bookingId := NewBooking(w, c)],
                   w.lines[c.bookingId := w.quotes[c.quoteId].quote.lines], w.quotes, w.owed + {c.bookingId})
  {
  }

  lemma WriteKeeps(w: World, c: ConfirmCall, rows: Rows, claimed: Claimed)
    requires Core(w) && c.key !in w.byKey && ConfirmRefusal(w, c) == None
    requires Linked(rows, w.owner, w.bookings) && Told(rows, w.owner, w.events)
    requires ClaimedOne(rows, claimed, c) && NoOverlap(claimed.rows) && RowsOk(w.units, claimed.rows)
    ensures Core(WriteBooking(w, c, claimed))
  {
    ConfirmKeepsLinks(rows, w.owner, w.bookings, claimed, c, NewBooking(w, c));
    ConfirmKeepsTold(rows, w.owner, w.bookings, w.events, claimed, c);
    ConfirmKeepsNames(w, c);
    ConfirmKeepsFrozen(w, c);
  }

  /** What a booking that was made went through. */
  lemma BookedMeans(w: World, c: ConfirmCall, rows: Rows, claimed: Claimed)
    requires DoConfirm(w, c).1.Booked?
    requires rows == Expire(w.allocations, c.swept, c.asOf) && claimed == ClaimForBooking(rows, c)
    ensures ConfirmRefusal(w, c) == None && claimed.Claimed? && claimed.id in claimed.rows
    ensures c.quoteId in w.quotes && c.input == w.quotes[c.quoteId].input
    ensures c.allocationId !in rows && (c.key !in w.byKey || w.byKey[c.key] !in w.bookings)
    ensures DoConfirm(w, c).0 == WriteBooking(w, c, claimed)
  {
  }

  lemma ClaimedKeeps(w: World, c: ConfirmCall, rows: Rows, claimed: Claimed)
    requires Core(w) && ConfirmRefusal(w, c) == None && (c.key !in w.byKey || w.byKey[c.key] !in w.bookings)
    requires SameBooked(w.allocations, rows) && ClaimedOne(rows, claimed, c)
    requires NoOverlap(claimed.rows) && RowsOk(w.units, claimed.rows)
    ensures Core(WriteBooking(w, c, claimed))
  {
    SameBookedKeepsLinks(w.allocations, rows, w.owner, w.bookings, w.events);
    WriteKeeps(w, c, rows, claimed);
  }

  lemma QuotedStayIsReal(quotes: map<Id, StoredQuote>, id: Id, input: QuoteInput)
    requires QuotesOk(quotes) && id in quotes && input == quotes[id].input
    ensures input.stay.NonEmpty()
  {
    assert QuoteOk(quotes[id]);
  }

  lemma ConfirmKeeps(w: World, c: ConfirmCall)
    requires Core(w) && OfCategory(w, c.candidates, c.input.category)
    ensures Core(DoConfirm(w, c).0)
  {
    if DoConfirm(w, c).1.Booked? {
      var rows := Expire(w.allocations, c.swept, c.asOf);
      var claimed := ClaimForBooking(rows, c);
      BookedMeans(w, c, rows, claimed);
      ExpireKeeps(w.units, w.allocations, c.swept, c.asOf);
      QuotedStayIsReal(w.quotes, c.quoteId, c.input);
      ClaimIsOne(w.units, rows, c);
      ClaimedKeeps(w, c, rows, claimed);
      SameWorld(WriteBooking(w, c, claimed), DoConfirm(w, c).0);
    } else {
      SameWorld(w, DoConfirm(w, c).0);
    }
  }

  // ---- quoting ------------------------------------------------------------------------------------------

  lemma NewQuoteOk(snapshot: P.Snapshot, request: P.Request, input: QuoteInput, expires: int)
    requires P.Price(snapshot, request).Ok? && request.stay == input.stay
    ensures QuoteOk(StoredQuote(input, P.Price(snapshot, request).value, expires))
  {
    B.EveryQuoteBalances(snapshot, request);
  }

  lemma AddQuoteKeepsFrozen(bookings: map<Id, BookingRow>, lines: map<Id, seq<P.Line>>,
                            quotes: map<Id, StoredQuote>, owed: set<Id>, id: Id, q: StoredQuote)
    requires Frozen(bookings, lines, quotes, owed) && id !in quotes
    ensures Frozen(bookings, lines, quotes[id := q], owed)
  {
  }

  lemma AddQuoteKeepsQuotes(quotes: map<Id, StoredQuote>, id: Id, q: StoredQuote)
    requires QuotesOk(quotes) && QuoteOk(q)
    ensures QuotesOk(quotes[id := q])
  {
  }

  lemma AddQuoteKeeps(w: World, id: Id, q: StoredQuote)
    requires Core(w) && id !in w.quotes && QuoteOk(q)
    ensures Core(w.(quotes := w.quotes[id := q]))
  {
    AddQuoteKeepsFrozen(w.bookings, w.lines, w.quotes, w.owed, id, q);
    AddQuoteKeepsQuotes(w.quotes, id, q);
  }

  lemma QuoteKeeps(w: World, id: Id, category: Id, request: PricingRequest, lead: int, occupancy: int,
                   snapshot: P.Snapshot, expires: int)
    requires Core(w)
    ensures Core(DoQuote(w, id, category, request, lead, occupancy, snapshot, expires).0)
  {
    var filled := ForEngine(request.(leadDays := lead, occupancyBP := occupancy));
    if P.Price(snapshot, filled).Ok? && id !in w.quotes {
      NewQuoteOk(snapshot, filled, InputHash(category, request), expires);
      AddQuoteKeeps(w, id, StoredQuote(InputHash(category, request), P.Price(snapshot, filled).value, expires));
    }
  }

  /** The reference a booking holds keeps its quote. */
  lemma PruneKeepsFrozen(bookings: map<Id, BookingRow>, lines: map<Id, seq<P.Line>>,
                         quotes: map<Id, StoredQuote>, owed: set<Id>, aged: set<Id>)
    requires Frozen(bookings, lines, quotes, owed)
    requires forall b | b in bookings :: bookings[b].quoteId !in aged
    ensures Frozen(bookings, lines, quotes - aged, owed)
  {
  }

  lemma PruneKeeps(w: World, asOf: int)
    requires Core(w)
    ensures Core(DoPrune(w, asOf).0)
  {
    if DoPrune(w, asOf).1.Done? {
      PruneKeepsFrozen(w.bookings, w.lines, w.quotes, w.owed, LongExpired(w.quotes, asOf));
    }
  }

  // ---- every step, every run -------------------------------------------------------------------------------

  lemma TickKeeps(w: World, to: int)
    requires Core(w)
    ensures Core(w.(clock := to))
  {
  }

  lemma DeskStepKeepsCore(w: World, a: Action)
    requires Core(w) && (a.CheckIn? || a.CheckOut? || a.Cancel? || a.Reassign?)
    ensures Core(Step(w, a).0)
  {
    match a
    case CheckIn(b) => TransitionKeeps(w, b, State.Confirmed, CheckedIn, true, OnCheckedIn);
    case CheckOut(b) => TransitionKeeps(w, b, CheckedIn, CheckedOut, false, OnCheckedOut);
    case Cancel(b) => TransitionKeeps(w, b, State.Confirmed, Cancelled, false, OnCancelled);
    case Reassign(b, unit, seenOn) => ReassignKeeps(w, b, unit, seenOn);
  }

  lemma StepKeepsCore(w: World, a: Action)
    requires Core(w) && Possible(w, a)
    ensures Core(Step(w, a).0)
  {
    match a
    case Tick(to) => TickKeeps(w, to);
    case CreateQuote(id, category, request, lead, occupancy, snapshot, expires) =>
      QuoteKeeps(w, id, category, request, lead, occupancy, snapshot, expires);
    case PruneQuotes(asOf) => PruneKeeps(w, asOf);
    case TakeHold(c) => HoldKeeps(w, c);
    case ReleaseHold(token) => ReleaseKeeps(w, token);
    case SweepHolds(asOf) => SweepKeeps(w, asOf);
    case Confirm(c) => ConfirmKeeps(w, c);
    case CreateBlock(block, unit, stay) => CreateBlockKeeps(w, block, unit, stay);
    case DeleteBlock(block) => DeleteBlockKeeps(w, block);
    case _ => DeskStepKeepsCore(w, a);
  }

  /** Every stored quote is the price of the choices stored with it. */
  ghost predicate AllPriced(quotes: map<Id, StoredQuote>) {
    forall q | q in quotes :: IsPriceOf(quotes[q].input, quotes[q].quote)
  }

  /** What the engine is given for a guest's choices, at a lead time and occupancy. */
  function RequestOf(input: QuoteInput, leadDays: int, occupancyBP: int): P.Request {
    P.Request(input.stay, input.adults, AgesOn(input.children, input.stay.arrival), input.pets, input.vehicles,
              leadDays, occupancyBP)
  }

  /** The quote is the price of these choices, on rates loaded for their category and
      campaign. */
  ghost predicate PricedFrom(input: QuoteInput, quote: P.Quote, s: P.Snapshot, leadDays: int, occupancyBP: int) {
    && s.category == input.category && s.campaignCode == input.campaign
    && P.Price(s, RequestOf(input, leadDays, occupancyBP)) == P.Ok(quote)
  }

  ghost predicate IsPriceOf(input: QuoteInput, quote: P.Quote) {
    exists s, leadDays, occupancyBP :: PricedFrom(input, quote, s, leadDays, occupancyBP)
  }

  /** What is priced is what is hashed, whatever the server fills in between. */
  lemma FilledIsHashed(category: Id, r: PricingRequest, lead: int, occupancy: int)
    ensures ForEngine(r.(leadDays := lead, occupancyBP := occupancy))
         == RequestOf(InputHash(category, r), lead, occupancy)
  {
  }

  lemma NewQuoteIsPriced(quotes: map<Id, StoredQuote>, id: Id, input: QuoteInput, s: P.Snapshot,
                         lead: int, occupancy: int, quote: P.Quote, expires: int)
    requires AllPriced(quotes) && PricedFrom(input, quote, s, lead, occupancy)
    ensures AllPriced(quotes[id := StoredQuote(input, quote, expires)])
  {
  }

  lemma FewerArePriced(quotes: map<Id, StoredQuote>, fewer: map<Id, StoredQuote>)
    requires AllPriced(quotes) && forall q | q in fewer :: q in quotes && fewer[q] == quotes[q]
    ensures AllPriced(fewer)
  {
  }

  lemma PruneOnlyRemoves(w: World, asOf: int)
    ensures var after := DoPrune(w, asOf).0.quotes; forall q | q in after :: q in w.quotes && after[q] == w.quotes[q]
  {
  }

  lemma QuoteKeepsPrices(w: World, id: Id, category: Id, r: PricingRequest, lead: int, occupancy: int,
                         s: P.Snapshot, expires: int)
    requires AllPriced(w.quotes) && s.category == category && s.campaignCode == r.campaign
    ensures AllPriced(DoQuote(w, id, category, r, lead, occupancy, s, expires).0.quotes)
  {
    var input := InputHash(category, r);
    FilledIsHashed(category, r, lead, occupancy);
    var priced := P.Price(s, RequestOf(input, lead, occupancy));
    if priced.Ok? && id !in w.quotes {
      assert PricedFrom(input, priced.value, s, lead, occupancy);
      NewQuoteIsPriced(w.quotes, id, input, s, lead, occupancy, priced.value, expires);
    }
  }

  /** Only quoting and pruning touch quotes. */
  lemma QuotesUntouched(w: World, a: Action)
    requires !a.CreateQuote? && !a.PruneQuotes?
    ensures Step(w, a).0.quotes == w.quotes
  {
  }

  lemma StepKeepsPrices(w: World, a: Action)
    requires AllPriced(w.quotes) && Possible(w, a)
    ensures AllPriced(Step(w, a).0.quotes)
  {
    if a.CreateQuote? {
      QuoteKeepsPrices(w, a.quoteId, a.category, a.request, a.leadDays, a.occupancyBP, a.snapshot, a.expires);
    } else if a.PruneQuotes? {
      PruneOnlyRemoves(w, a.asOf);
      FewerArePriced(w.quotes, DoPrune(w, a.asOf).0.quotes);
    } else {
      QuotesUntouched(w, a);
    }
  }

  /** The whole invariant. */
  ghost predicate Inv(w: World) {
    Core(w) && AllPriced(w.quotes)
  }

  lemma StepKeeps(w: World, a: Action)
    requires Inv(w) && Possible(w, a)
    ensures Inv(Step(w, a).0)
  {
    StepKeepsCore(w, a);
    StepKeepsPrices(w, a);
  }

  /** The operator's first day: an inventory, and nothing in it yet. */
  function Opening(units: map<Id, Unit>, clock: int): World {
    World(units, map[], map[], map[], map[], map[], map[], [], {}, clock)
  }

  /** In every state any interleaving reaches, the whole invariant holds. */
  lemma {:induction false} RunKeeps(w: World, actions: seq<Action>)
    requires Inv(w) && PossibleRun(w, actions)
    ensures Inv(Run(w, actions))
  {
    if actions != [] {
      var n := |actions| - 1;
      assert PossibleRun(w, actions[..n]) by {
        forall k | 0 <= k < n ensures Possible(Run(w, actions[..n][..k]), actions[..n][k]) {
          assert actions[..n][..k] == actions[..k];
        }
      }
      RunKeeps(w, actions[..n]);
      StepKeeps(Run(w, actions[..n]), actions[n]);
    }
  }

  lemma OpeningIsSound(units: map<Id, Unit>, clock: int)
    ensures Inv(Opening(units, clock))
  {
  }
}
