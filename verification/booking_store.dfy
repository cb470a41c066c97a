/** The booking transactions as they run: statement by statement, on tables other
    clients go on changing. Each is shown to have the effect of one atomic step,
    taken after whatever the others committed in the meantime, and each answer is
    tied to its cause. */
module BookingStore {
  import opened Dates
  import opened Options
  import opened Inventory
  import opened Occupancy
  import opened OccupancyInvariant
  import opened Schedules
  import A = Assignment
  import P = Pricing

  /** How walking the candidates ended: an insert survived, none did, or one failed
      for a reason no other candidate would cure. */
  datatype Claiming = Got | Lost | Broken

  /** How inserting the booking ended. */
  datatype Inserting = Inserted(reference: string) | Collided | KeyTaken | Gone

  datatype Loading = Loaded(quote: StoredQuote) | NotLoaded(error: Error)

  /** What a replay shows of the booking. */
  datatype Summary = Summary(
    reference: string, state: State, category: Id, stay: Stay, grossMinor: int, netMinor: int, vatMinor: int)

  /** Before occupancy: an answer already, or a booking written with this reference. */
  datatype Preparing = Answered(out: Outcome) | Prepared(reference: string, quote: StoredQuote)

  lemma ClaimsTheFirst(view: Rows, c: ConfirmCall)
    requires c.holdToken == None && c.candidates != [] && Free(view, c.candidates[0], c.input.stay)
    ensures ClaimForBooking(view, c)
         == Claimed(view[c.allocationId := BookedRow(c.input.category, c.candidates[0], c.input.stay, c.bookingId)],
                    c.allocationId)
  {
  }

  lemma NotRefused(w: World, c: ConfirmCall, reference: string)
    requires c.quoteId in w.quotes && c.now < w.quotes[c.quoteId].expires
    requires c.input == w.quotes[c.quoteId].input && w.quotes[c.quoteId].quote.lines != []
    requires c.bookingId !in w.bookings && c.allocationId !in w.allocations
    requires c.references == [reference] && reference !in References(w)
    ensures ConfirmRefusal(w, c) == None && NewBooking(w, c).reference == reference
  {
    assert PickReference(References(w), c.references, REFERENCE_ATTEMPTS) == Some(reference);
  }

  lemma ConfirmIsOneStep(w: World, c: ConfirmCall, claimed: Claimed)
    requires c.key !in w.byKey && ConfirmRefusal(w, c) == None
    requires claimed == ClaimForBooking(Expire(w.allocations, c.swept, c.asOf), c) && claimed.Claimed?
    ensures claimed.id in claimed.rows
    ensures DoConfirm(w, c)
         == (WriteBooking(w, c, claimed), Booked(NewBooking(w, c).reference, claimed.rows[claimed.id].unit))
  {
  }

  lemma KeptUnit(rows: Rows, c: ConfirmCall)
    requires Convertible(rows, c.holdToken, c.input.stay, c.asOf)
    ensures var claimed := ClaimForBooking(rows, c);
            && claimed.Claimed? && claimed.id in claimed.rows
            && claimed.rows[claimed.id].unit == rows[c.holdToken.value].unit
  {
  }

  lemma BookedUnit(w: World, c: ConfirmCall)
    requires DoConfirm(w, c).1.Booked?
    ensures var claimed := ClaimForBooking(Expire(w.allocations, c.swept, c.asOf), c);
            && claimed.Claimed? && claimed.id in claimed.rows
            && DoConfirm(w, c).1.unit == claimed.rows[claimed.id].unit
  {
  }

  /** Converting leaves the guest on the unit of the hold. */
  lemma KeptStands(w: World, c: ConfirmCall)
    requires DoConfirm(w, c).1.Booked?
    requires Convertible(Expire(w.allocations, c.swept, c.asOf), c.holdToken, c.input.stay, c.asOf)
    ensures c.holdToken.Some? && c.holdToken.value in w.allocations
    ensures DoConfirm(w, c).1.unit == w.allocations[c.holdToken.value].unit
  {
    BookedUnit(w, c);
    KeptUnit(Expire(w.allocations, c.swept, c.asOf), c);
  }

  lemma ReadmittedStands(w: World, c: ConfirmCall)
    requires DoConfirm(w, c).1.Booked? && c.holdToken == None && c.candidates != []
    requires Free(Expire(w.allocations, c.swept, c.asOf), c.candidates[0], c.input.stay)
    ensures DoConfirm(w, c).1.unit == c.candidates[0]
  {
    BookedUnit(w, c);
    ClaimsTheFirst(Expire(w.allocations, c.swept, c.asOf), c);
  }

  /** Where a booking that came about stands. */
  lemma BookedStands(seen: Schedule, req: ConfirmRequest, listing: seq<Id>, looks: nat, atHold: nat, call: ConfirmCall)
    requires ConfirmMatches(call, req)
    requires Trail(seen, atHold, looks, req, listing, call) && Arrived(seen, atHold, looks, req, call)
    requires DoConfirm(seen(looks), call).1.Booked?
    ensures GuestPlaced(seen, atHold, call.swept, req, DoConfirm(seen(looks), call).1.unit)
  {
    if KeptAt(seen, atHold, call.swept, req) {
      KeptStands(seen(looks), call);
    } else {
      var rows := Expire(seen(looks).allocations, call.swept, call.asOf);
      assert Free(rows, call.candidates[0], call.input.stay);
      ReadmittedStands(seen(looks), call);
      ReadmissionAnswers(seen, atHold + 1, looks, req, listing, call);
    }
  }

  /** A hold whose first candidate is free is one atomic step. */
  lemma HoldsTheFirst(w: World, c: HoldCall)
    requires c.candidates != [] && c.stay.NonEmpty() && c.token !in w.allocations
    requires Free(Expire(w.allocations, c.swept, c.asOf), c.candidates[0], c.stay)
    ensures DoHold(w, c)
         == (w.(allocations := Expire(w.allocations, c.swept, c.asOf)[c.token := HoldRow(c, c.candidates[0])]),
             Holding(c.candidates[0]))
  {
  }

  lemma KnownIsReplayed(w: World, c: ConfirmCall)
    requires Known(w, c.key)
    ensures DoConfirm(w, c) == (w, Replayed(w.bookings[w.byKey[c.key]].reference))
  {
  }

  class Store {
    var units: map<Id, Unit>
    var allocations: Rows
    var bookings: map<Id, BookingRow>
    var byKey: map<string, Id>
    var owner: map<Id, Id>
    var quotes: map<Id, StoredQuote>
    var lines: map<Id, seq<P.Line>>
    var events: seq<Event>
    var owed: set<Id>
    var clock: int

    function Tables(): World
      reads this
    {
      World(units, allocations, bookings, byKey, owner, quotes, lines, events, owed, clock)
    }

    constructor (inventory: map<Id, Unit>, now: int)
      ensures Tables() == Opening(inventory, now) && Inv(Tables())
    {
      units, allocations, bookings := inventory, map[], map[];
      byKey, owner, quotes, lines := map[], map[], map[], map[];
      events, owed, clock := [], {}, now;
      new;
      OpeningIsSound(inventory, now);
    }

    /** Other clients' commits become visible. */
    method Refresh(w: World)
      modifies this
      ensures Tables() == w
    {
      units, allocations, bookings := w.units, w.allocations, w.bookings;
      byKey, owner, quotes, lines := w.byKey, w.owner, w.quotes, w.lines;
      events, owed, clock := w.events, w.owed, w.clock;
    }

    // ---- claiming a unit --------------------------------------------------------------------

    /** Tries each candidate in a savepoint until an insert survives. Nothing is
        committed here: `mine` is the table as this transaction sees it, its own
        expiry included. */
    method Claim(id: Id, row: Allocation, candidates: seq<Id>, swept: set<Id>, asOf: int, seen: Schedule, from: nat)
      returns (r: Claiming, mine: Rows, rest: seq<Id>, looks: nat)
      requires Tables() == seen(from)
      modifies this
      ensures Tables() == seen(looks)
      ensures Walked(seen, from, looks, swept, asOf, candidates, rest, row.stay)
      ensures r.Lost? <==> rest == []
      ensures r.Broken? <==> rest != [] && Hopeless(seen(looks), id, row.stay)
      ensures r.Got? ==>
                && rest != [] && !TakenAt(seen, looks, swept, asOf, rest[0], row.stay)
                && mine == Expire(allocations, swept, asOf)[id := row.(unit := rest[0])]
    {
      looks := from;
      for i := 0 to |candidates|
        invariant looks == from + i && Tables() == seen(looks)
        invariant forall j | 0 <= j < i :: TakenAt(seen, from + 1 + j, swept, asOf, candidates[j], row.stay)
      {
        looks := looks + 1;
        Refresh(seen(looks));
        rest := candidates[i..];
        mine := Expire(allocations, swept, asOf);
        if !row.stay.NonEmpty() || id in mine {
          return Broken, mine, rest, looks;
        }
        if Free(mine, candidates[i], row.stay) {
          return Got, mine[id := row.(unit := candidates[i])], rest, looks;
        }
      }
      return Lost, allocations, [], looks;
    }

    /** The candidate query, on the tables as this transaction sees them. */
    method ReadCandidates(swept: set<Id>, asOf: int, q: A.Query, listing: seq<Id>) returns (ids: seq<Id>)
      ensures ids == Seen(Tables(), swept, asOf, q, listing)
    {
      var cands := A.CandidatesOn(units, Expire(allocations, swept, asOf), q, listing);
      ids := A.IdsOf(cands);
    }

    // ---- holds --------------------------------------------------------------------------------

    /** Reserves a unit. Whatever other clients commit between its statements, a
        hold that succeeds is the one atomic step DoHold after them, on the
        candidates it had not been refused yet; one that is refused leaves their
        work alone. There is no unit exactly when every candidate was taken when it
        was tried, and unhindered a hold succeeds exactly when one was free in its
        turn. */
    method Hold(req: HoldRequest, listing: seq<Id>, seen: Schedule)
      returns (out: Outcome, looks: nat, call: HoldCall)
      requires Tables() == seen(0)
      modifies this
      ensures HoldMatches(call, req, StaleIn(seen(0).allocations, req.category, req.asOf))
      ensures HoldTrail(seen, looks, req, listing, call)
      ensures out == Refused(NoUnitAvailable) <==> call.candidates == []
      ensures out == Refused(BadInput) <==>
                call.candidates != [] && Hopeless(seen(looks), req.token, req.stay)
      ensures out == Refused(NoUnitAvailable) || out == Refused(BadInput) || out.Holding?
      ensures out.Refused? ==> Tables() == seen(looks)
      ensures out.Holding? ==> Tables() == DoHold(seen(looks), call).0 && out == DoHold(seen(looks), call).1
      ensures out.Holding? ==>
                HoldFits(seen(1), req, out.unit) && HoldWritten(allocations, req, out.unit)
      ensures out == Refused(NoUnitAvailable) && A.Lists(listing, seen(1).units) ==>
                HoldTriedAll(seen, call.swept, req)
      ensures HoldUnhindered(seen, req) ==>
                (out.Holding? <==> SomeFreeInTurn(seen, 1, call.swept, req.asOf, HoldIds(seen, req, listing),
                                                  req.stay))
    {
      var swept := StaleIn(allocations, req.category, req.asOf);
      call := HoldCall(req.category, req.stay, req.token, req.Deadline(), req.asOf, swept, []);
      Refresh(seen(1));
      var ids := ReadCandidates(swept, req.asOf, req.Query(), listing);
      var r, mine, rest;
      r, mine, rest, looks := Claim(req.token, HoldRow(call, 0), ids, swept, req.asOf, seen, 1);
      WalkFindsTheFree(seen, 1, looks, swept, req.asOf, ids, rest, req.stay);
      call := call.(candidates := rest);
      HoldAnswers(seen, looks, req, listing, call);
      match r
      case Got =>
        HoldsTheFirst(Tables(), call);
        allocations := mine;
        out := Holding(rest[0]);
      case Lost => out := Refused(NoUnitAvailable);
      case Broken => out := Refused(BadInput);
    }

    /** Expires a hold its guest has finished with; a hold that is gone already is
        no error. */
    method ReleaseHold(token: Id) returns (out: Outcome)
      modifies this`allocations
      ensures Tables() == DoRelease(old(Tables()), token).0
      ensures out == DoRelease(old(Tables()), token).1
    {
      if token in allocations && allocations[token].kind == AllocationKind.Hold && allocations[token].state == Held {
        allocations := allocations[token := allocations[token].(state := Expired)];
      }
      return Done;
    }

    method SweepHolds(asOf: int) returns (released: nat)
      modifies this`allocations
      ensures Tables() == Step(old(Tables()), Action.SweepHolds(asOf)).0
      ensures released == |AllStale(old(allocations), asOf)|
    {
      var due := AllStale(allocations, asOf);
      allocations := Expire(allocations, due, asOf);
      released := |due|;
    }

    // ---- confirming ---------------------------------------------------------------------------

    /** A booking already made under this key, as it now stands. */
    method ByIdempotencyKey(key: string) returns (found: Option<Summary>)
      ensures found.Some? <==>
                && key in byKey && byKey[key] in bookings && byKey[key] in owner && owner[byKey[key]] in allocations
      ensures found.Some? ==>
                && var b, a, s := bookings[byKey[key]], allocations[owner[byKey[key]]], found.value;
                && s.reference == b.reference && s.category == b.input.category
                && s.grossMinor == b.grossMinor && s.netMinor == b.netMinor && s.vatMinor == b.vatMinor
                && s.state == a.state && s.stay == a.stay
    {
      if key in byKey && byKey[key] in bookings && byKey[key] in owner && owner[byKey[key]] in allocations {
        var b, a := bookings[byKey[key]], allocations[owner[byKey[key]]];
        return Some(Summary(b.reference, a.state, b.input.category, a.stay, b.grossMinor, b.netMinor, b.vatMinor));
      }
      return None;
    }

    /** The quote, if it can still be confirmed and is for what is asked; not found,
        expired and mismatched otherwise, in that order. */
    method LoadQuote(req: ConfirmRequest) returns (r: Loading)
      ensures r.Loaded? <==> GoodQuote(Tables(), req)
      ensures r.Loaded? ==> r.quote == quotes[req.quoteId]
      ensures forall error :: r == NotLoaded(error) <==> QuoteCause(Tables(), req, error)
    {
      if req.quoteId !in quotes {
        return NotLoaded(QuoteNotFound);
      }
      var q := quotes[req.quoteId];
      if q.expires <= req.now {
        return NotLoaded(QuoteExpired);
      }
      if req.Input() != q.input {
        return NotLoaded(QuoteMismatch);
      }
      return Loaded(q);
    }

    /** Inserts the booking, selecting from its quote, under the first of five
        references that no booking has. */
    method InsertBooking(req: ConfirmRequest, seen: Schedule) returns (r: Inserting, tries: nat)
      requires Tables() == seen(2)
      modifies this
      ensures tries <= Tries(req) && Tables() == seen(2 + tries)
      ensures r.Collided? <==> forall j: nat | j < Tries(req) :: ReferenceTaken(seen, req, j) && QuoteAt(seen, req, j)
      ensures r.Collided? ==> tries == Tries(req)
      ensures !r.Collided? ==> tries > 0 && forall j: nat | j < tries - 1 :: ReferenceTaken(seen, req, j)
      ensures r.Gone? <==> tries > 0 && !QuoteAt(seen, req, tries - 1)
      ensures r.Inserted? || r.KeyTaken? ==> FirstFreeReference(seen, req, tries - 1)
      ensures r.KeyTaken? ==> req.key in byKey
      ensures r.Inserted? ==> r.reference == req.references[tries - 1] && req.key !in byKey
    {
      tries := 0;
      while tries < REFERENCE_ATTEMPTS && tries < |req.references|
        invariant 0 <= tries <= Tries(req) && Tables() == seen(2 + tries)
        invariant forall j: nat | j < tries :: ReferenceTaken(seen, req, j) && QuoteAt(seen, req, j)
      {
        Refresh(seen(3 + tries));
        var candidate := req.references[tries];
        tries := tries + 1;
        if req.quoteId !in quotes {
          assert !QuoteAt(seen, req, tries - 1);
          return Gone, tries;
        }
        if candidate !in References(Tables()) {
          assert !ReferenceTaken(seen, req, tries - 1);
          r := if req.key in byKey then KeyTaken else Inserted(candidate);
          return;
        }
      }
      return Collided, tries;
    }

    /** The booking and its lines, if they can be written. */
    method WriteContract(req: ConfirmRequest, seen: Schedule, stored: StoredQuote) returns (p: Preparing, looks: nat)
      requires Tables() == seen(2) && GoodQuote(seen(1), req) && stored == seen(1).quotes[req.quoteId]
      modifies this
      ensures looks >= 2 && Tables() == seen(looks)
      ensures p.Answered? ==> p.out.Refused? && EarlyCause(seen, req, looks, p.out.error)
      ensures p.Prepared? ==> Written(seen, req, looks, p.reference, p.quote)
    {
      var inserting, tries := InsertBooking(req, seen);
      looks := 2 + tries;
      match inserting
      case Collided => p := Answered(Refused(NoReference));
      case KeyTaken => p := Answered(Refused(DuplicateKey));
      case Gone => p := Answered(Refused(QuoteGone));
      case Inserted(reference) =>
        p := if stored.quote.lines == [] then Answered(Refused(NoLines)) else Prepared(reference, stored);
    }

    /** Everything before occupancy: a replay, a refusal, or a booking written but
        not yet anywhere. */
    method Prepare(req: ConfirmRequest, seen: Schedule) returns (p: Preparing, swept: set<Id>, looks: nat)
      requires Tables() == seen(0)
      modifies this
      ensures Tables() == seen(looks)
      ensures Known(seen(0), req.key) <==> looks == 0
      ensures looks == 0 ==>
                p == Answered(Replayed(seen(0).bookings[seen(0).byKey[req.key]].reference))
      ensures looks > 0 && p.Answered? ==> p.out.Refused? && EarlyCause(seen, req, looks, p.out.error)
      ensures p.Prepared? ==> Written(seen, req, looks, p.reference, p.quote) && swept == ConfirmSweep(seen, req)
    {
      swept := {};
      var found := ByIdempotencyKey(req.key);
      if found.Some? {
        return Answered(Replayed(found.value.reference)), swept, 0;
      }
      Refresh(seen(1));
      var loading := LoadQuote(req);
      if loading.NotLoaded? {
        return Answered(Refused(loading.error)), swept, 1;
      }
      Refresh(seen(2));
      swept := StaleIn(allocations, req.category, req.asOf);
      p, looks := WriteContract(req, seen, loading.quote);
    }

    /** Converts the hold if it is still good for this stay, the test being part of
        the update. Nothing is committed here. */
    method ConvertHold(req: ConfirmRequest, call: ConfirmCall) returns (claimed: Option<Claimed>)
      requires ConfirmMatches(call, req) && call.holdToken == req.holdToken
      ensures claimed.Some? <==> Convertible(Expire(allocations, call.swept, req.asOf), req.holdToken,
                                             req.Nights(), req.asOf)
      ensures claimed.Some? <==>
                && req.holdToken.Some? && req.holdToken.value in allocations
                && var hold := Expire(allocations, call.swept, req.asOf)[req.holdToken.value];
                && hold.kind == AllocationKind.Hold && hold.state == Held && hold.stay == req.choices.stay
                && match hold.deadline case Some(d) => d > req.asOf case None => false
      ensures claimed.Some? ==>
                claimed.value == ClaimForBooking(Expire(allocations, call.swept, req.asOf), call)
                && claimed.value.Claimed?
    {
      var view := Expire(allocations, call.swept, req.asOf);
      if !Convertible(view, req.holdToken, req.Nights(), req.asOf) {
        return None;
      }
      var token := req.holdToken.value;
      var converted := view[token].(kind := Booking, state := State.Confirmed, deadline := None,
                                    booking := Some(req.bookingId));
      return Some(Claimed(view[token := converted], token));
    }

    /** Re-runs admission from scratch. Nothing is committed here. */
    method Readmit(req: ConfirmRequest, asked: ConfirmCall, listing: seq<Id>, seen: Schedule, first: nat)
      returns (r: Claiming, claimed: Claimed, call: ConfirmCall, looks: nat)
      requires ConfirmMatches(asked, req) && asked.holdToken == None
      modifies this
      ensures Tables() == seen(looks)
      ensures call == asked.(candidates := call.candidates)
      ensures ReadmitTrail(seen, first, looks, req, listing, call)
      ensures r.Lost? <==> call.candidates == []
      ensures r.Broken? <==> call.candidates != [] && Hopeless(seen(looks), req.allocationId, req.Nights())
      ensures r.Got? ==>
                && !TakenAt(seen, looks, call.swept, req.asOf, call.candidates[0], req.Nights())
                && claimed == ClaimForBooking(Expire(allocations, call.swept, req.asOf), call) && claimed.Claimed?
    {
      Refresh(seen(first));
      var ids := ReadCandidates(asked.swept, req.asOf, Readmission(req), listing);
      var row := BookedRow(req.category, 0, req.Nights(), req.bookingId);
      var mine, rest;
      r, mine, rest, looks := Claim(req.allocationId, row, ids, asked.swept, req.asOf, seen, first);
      call := asked.(candidates := rest);
      claimed := Claimed(mine, req.allocationId);
      if r.Got? {
        ClaimsTheFirst(Expire(allocations, call.swept, req.asOf), call);
      }
    }

    /** Occupancy for the booking, by the hold or by re-admission. */
    method Occupy(req: ConfirmRequest, asked: ConfirmCall, listing: seq<Id>, seen: Schedule, atHold: nat)
      returns (r: Claiming, claimed: Claimed, call: ConfirmCall, looks: nat)
      requires ConfirmMatches(asked, req)
      modifies this
      ensures Tables() == seen(looks) && looks >= atHold
      ensures call == asked.(holdToken := call.holdToken, candidates := call.candidates)
      ensures Trail(seen, atHold, looks, req, listing, call)
      ensures r.Lost? <==> !KeptAt(seen, atHold, call.swept, req) && call.candidates == []
      ensures r.Broken? ==> Hopeless(seen(looks), req.allocationId, req.Nights())
      ensures r.Got? ==>
                && Arrived(seen, atHold, looks, req, call)
                && claimed == ClaimForBooking(Expire(allocations, call.swept, req.asOf), call) && claimed.Claimed?
    {
      Refresh(seen(atHold));
      looks := atHold;
      call := asked.(holdToken := req.holdToken, candidates := []);
      var converted := ConvertHold(req, call);
      if converted.Some? {
        r, claimed := Got, converted.value;
      } else {
        r, claimed, call, looks := Readmit(req, call.(holdToken := None), listing, seen, atHold + 1);
      }
    }

    /** Commits the booking, its lines, its occupancy, its event and the message it
        is owed, together. */
    method Commit(call: ConfirmCall, claimed: Claimed)
      requires ConfirmRefusal(Tables(), call) == None && claimed.Claimed? && claimed.id in claimed.rows
      modifies this
      ensures Tables() == WriteBooking(old(Tables()), call, claimed)
    {
      var booking := NewBooking(Tables(), call);
      allocations := claimed.rows;
      bookings := bookings[call.bookingId := booking];
      byKey := byKey[call.key := call.bookingId];
      owner := owner[call.bookingId := claimed.id];
      lines := lines[call.bookingId := quotes[call.quoteId].quote.lines];
      events := events + [Event(call.bookingId, OnConfirmed(claimed.rows[claimed.id].unit))];
      owed := owed + {call.bookingId};
    }

    /** The end of a confirmation that has its place: a clash on a unique or foreign
        key is reported no later than here, and otherwise everything commits. */
    method Finish(req: ConfirmRequest, seen: Schedule, looks: nat, reference: string, stored: StoredQuote,
                  hopeless: bool, call: ConfirmCall, claimed: Claimed)
      returns (out: Outcome)
      requires Tables() == seen(looks) && ConfirmMatches(call, req) && call.references == [reference]
      requires GoodQuote(seen(1), req) && stored == seen(1).quotes[req.quoteId] && stored.quote.lines != []
      requires hopeless ==> Hopeless(seen(looks), req.allocationId, req.Nights())
      requires !hopeless ==>
                 claimed == ClaimForBooking(Expire(allocations, call.swept, req.asOf), call) && claimed.Claimed?
      modifies this
      ensures hopeless ==> out.Refused?
      ensures out.Booked? || (out.Refused? && LateCause(seen, req, looks, reference, out.error))
      ensures out.Refused? ==> Tables() == seen(looks)
      ensures out.Booked? ==> Tables() == DoConfirm(seen(looks), call).0 && out == DoConfirm(seen(looks), call).1
    {
      if req.key in byKey || reference in References(Tables()) {
        return Refused(DuplicateKey);
      }
      if req.quoteId !in quotes || quotes[req.quoteId] != stored {
        return Refused(QuoteGone);
      }
      if hopeless || req.bookingId in bookings || req.allocationId in allocations {
        return Refused(BadInput);
      }
      NotRefused(Tables(), call, reference);
      ConfirmIsOneStep(Tables(), call, claimed);
      out := Booked(reference, claimed.rows[claimed.id].unit);
      Commit(call, claimed);
    }

    /** Finds the guest a place and commits, or says why not. */
    method Place(req: ConfirmRequest, asked: ConfirmCall, listing: seq<Id>, seen: Schedule, atHold: nat,
                 reference: string, stored: StoredQuote)
      returns (out: Outcome, looks: nat, call: ConfirmCall)
      requires ConfirmMatches(asked, req) && asked.swept == ConfirmSweep(seen, req) && asked.references == [reference]
      requires GoodQuote(seen(1), req) && stored == seen(1).quotes[req.quoteId] && stored.quote.lines != []
      requires atHold >= 4 && FirstFreeReference(seen, req, atHold - 4)
      modifies this
      ensures ConfirmMatches(call, req) && looks >= atHold
      ensures out.Booked? ==>
                && BookedBy(seen, req, listing, looks, atHold, call)
                && Tables() == DoConfirm(seen(looks), call).0 && out == DoConfirm(seen(looks), call).1
                && GuestPlaced(seen, atHold, call.swept, req, out.unit)
      ensures !out.Booked? ==>
                && out.Refused? && Tables() == seen(looks)
                && ((out.error == HoldExpired && !Placeable(seen, atHold, req, listing)
                     && (A.Lists(listing, seen(atHold + 1).units) ==>
                           GuestTriedAll(seen, atHold + 1, asked.swept, req)))
                    || LateCause(seen, req, looks, reference, out.error))
    {
      var r, claimed;
      r, claimed, call, looks := Occupy(req, asked, listing, seen, atHold);
      TrailFindsAPlace(seen, atHold, looks, req, listing, call);
      if r.Lost? {
        ReadmissionAnswers(seen, atHold + 1, looks, req, listing, call);
        out := Refused(HoldExpired);
      } else {
        out := Finish(req, seen, looks, reference, stored, r.Broken?, call, claimed);
        if out.Booked? {
          BookedStands(seen, req, listing, looks, atHold, call);
        }
      }
    }

    /** Turns a quote into a booking. A confirmation that succeeds is the one
        atomic step DoConfirm after whatever the others committed, on the hold if
        the hold was still good and otherwise on the candidates it had not been
        refused yet; one that is refused leaves their work alone, and each refusal
        has its cause. Unhindered, it succeeds exactly when there was a place for the
        guest when it was looked for. */
    method Confirm(req: ConfirmRequest, listing: seq<Id>, seen: Schedule)
      returns (out: Outcome, looks: nat, atHold: nat, call: ConfirmCall)
      requires Tables() == seen(0)
      modifies this
      ensures ConfirmMatches(call, req)
      ensures out.Booked? || out.Replayed? || out.Refused?
      ensures out.Replayed? <==> Known(seen(0), req.key)
      ensures out.Replayed? ==> looks == 0
      ensures out.Refused? ==> Tables() == seen(looks) && Cause(seen, req, listing, looks, atHold, out.error)
      ensures out.Booked? || out.Replayed? ==>
                Tables() == DoConfirm(seen(looks), call).0 && out == DoConfirm(seen(looks), call).1
      ensures out.Booked? ==>
                && BookedBy(seen, req, listing, looks, atHold, call)
                && GuestPlaced(seen, atHold, call.swept, req, out.unit)
      ensures out == Refused(HoldExpired) && A.Lists(listing, seen(atHold + 1).units) ==>
                GuestTriedAll(seen, atHold + 1, ConfirmSweep(seen, req), req)
      ensures Unhindered(seen, req) ==>
                && atHold >= 4 && FirstFreeReference(seen, req, atHold - 4)
                && (out.Booked? <==> Placeable(seen, atHold, req, listing))
    {
      var p, swept;
      p, swept, looks := Prepare(req, seen);
      call := ConfirmCall(req.key, req.quoteId, None, req.Input(), req.now, req.bookingId, req.allocationId,
                          [], req.asOf, swept, []);
      atHold := 0;
      if p.Prepared? {
        atHold := looks + 1;
        call := call.(references := [p.reference]);
        out, looks, call := Place(req, call, listing, seen, atHold, p.reference, p.quote);
      } else {
        out := p.out;
        if looks == 0 {
          KnownIsReplayed(Tables(), call);
        }
      }
      if Unhindered(seen, req) && !out.Booked? {
        UnhinderedNeedsAPlace(seen, req, listing, looks, atHold, out);
      }
    }

    // ---- the front desk -----------------------------------------------------------------------

    /** A guarded update and its event, or the reason nothing matched. */
    method Transition(booking: Id, from: State, to: State, pin: bool, what: What) returns (out: Outcome)
      modifies this`allocations, this`events
      ensures Tables() == Occupancy.Transition(old(Tables()), booking, from, to, pin, what).0
      ensures out == Occupancy.Transition(old(Tables()), booking, from, to, pin, what).1
    {
      if booking in bookings && booking in owner && owner[booking] in allocations {
        var id := owner[booking];
        var a := allocations[id];
        if a.state == from {
          allocations := allocations[id := a.(state := to, pinned := a.pinned || pin)];
          events := events + [Event(booking, what)];
          return Done;
        }
      }
      return Refused(if booking in bookings then WrongState else NotFound);
    }

    method CheckIn(booking: Id) returns (out: Outcome)
      modifies this`allocations, this`events
      ensures Tables() == Step(old(Tables()), Action.CheckIn(booking)).0
      ensures out == Step(old(Tables()), Action.CheckIn(booking)).1
    {
      out := Transition(booking, State.Confirmed, CheckedIn, true, OnCheckedIn);
    }

    method CheckOut(booking: Id) returns (out: Outcome)
      modifies this`allocations, this`events
      ensures Tables() == Step(old(Tables()), Action.CheckOut(booking)).0
      ensures out == Step(old(Tables()), Action.CheckOut(booking)).1
    {
      out := Transition(booking, CheckedIn, CheckedOut, false, OnCheckedOut);
    }

    method Cancel(booking: Id) returns (out: Outcome)
      modifies this`allocations, this`events
      ensures Tables() == Step(old(Tables()), Action.Cancel(booking)).0
      ensures out == Step(old(Tables()), Action.Cancel(booking)).1
    {
      out := Transition(booking, State.Confirmed, Cancelled, false, OnCancelled);
    }

    /** Moves a booking; the exclusion constraint alone decides whether it may. The
        unit it is said to come from is what the statement's snapshot shows; the row is
        moved, once its lock is had, from wherever it then is. A booking the snapshot
        does not show is not moved. */
    method Reassign(booking: Id, unit: Id, seen: Schedule) returns (out: Outcome)
      requires Tables() == seen(0)
      modifies this
      ensures var shown := booking in seen(0).owner && seen(0).owner[booking] in seen(0).allocations;
              && (shown ==>
                    var seenOn := seen(0).allocations[seen(0).owner[booking]].unit;
                    && Tables() == DoReassign(seen(1), booking, unit, seenOn).0
                    && out == DoReassign(seen(1), booking, unit, seenOn).1)
              && (!shown ==>
                    && Tables() == seen(1)
                    && out == Refused(if booking in seen(1).bookings then WrongState else NotFound))
    {
      var shown := booking in owner && owner[booking] in allocations;
      var seenOn := if shown then allocations[owner[booking]].unit else 0;
      Refresh(seen(1));
      if shown && booking in bookings && booking in owner && owner[booking] in allocations {
        var id := owner[booking];
        var now := allocations[id];
        if (now.state == State.Confirmed || now.state == CheckedIn) && SameCategory(units, unit, now) {
          if !MoveAllowed(allocations, id, unit) {
            return Refused(NoUnitAvailable);
          }
          allocations := allocations[id := now.(unit := unit)];
          events := events + [Event(booking, OnReassigned(seenOn, unit))];
          return Done;
        }
      }
      return Refused(if booking in bookings then WrongState else NotFound);
    }

    // ---- maintenance blocks -------------------------------------------------------------------

    method CreateBlock(block: Id, unit: Id, stay: Stay) returns (out: Outcome)
      modifies this`allocations
      ensures Tables() == DoCreateBlock(old(Tables()), block, unit, stay).0
      ensures out == DoCreateBlock(old(Tables()), block, unit, stay).1
    {
      if unit !in units {
        return Refused(NotFound);
      }
      if !stay.NonEmpty() || block in allocations {
        return Refused(BadInput);
      }
      if !Free(allocations, unit, stay) {
        return Refused(Overlapping);
      }
      allocations := allocations[block := Allocation(units[unit].category, unit, Block, State.Confirmed, stay,
                                                     None, None, false)];
      return Done;
    }

    method DeleteBlock(block: Id) returns (out: Outcome)
      modifies this`allocations
      ensures Tables() == DoDeleteBlock(old(Tables()), block).0
      ensures out == DoDeleteBlock(old(Tables()), block).1
    {
      if block in allocations && allocations[block].kind == Block {
        allocations := allocations - {block};
        return Done;
      }
      return Refused(NotFound);
    }
  }
}
