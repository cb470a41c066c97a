/** A transaction among others: what it asks, what has been committed by each of its
    statements, and what that obliges it to answer. */
module Schedules {
  import opened Dates
  import opened Options
  import opened Inventory
  import opened Occupancy
  import A = Assignment
  import P = Pricing

  /** A quarter of an hour. */
  const HOLD_TTL: int := 15 * 60

  datatype HoldRequest = HoldRequest(
    category: Id, stay: Stay, adults: int, children: int, pets: int, electricityAmp: int, accessible: bool,
    token: Id, now: int, asOf: int)
  {
    function Query(): A.Query {
      A.Query(category, stay, adults + children, pets, electricityAmp, accessible)
    }

    function Deadline(): int {
      now + HOLD_TTL
    }
  }

  /** A guest echoes the choices that were priced; the server's two are left at
      nought. */
  datatype ConfirmRequest = ConfirmRequest(
    key: string, quoteId: Id, holdToken: Option<Id>, category: Id, choices: PricingRequest,
    electricityAmp: int, accessible: bool, now: int,
    bookingId: Id, allocationId: Id, references: seq<string>, asOf: int)
  {
    function Input(): QuoteInput {
      InputHash(category, choices)
    }

    function Nights(): Stay {
      choices.stay
    }
  }

  /** What other clients have committed by this transaction's first statement, its
      second, and so on. Reads see the latest commit, as READ COMMITTED has it. */
  type Schedule = nat -> World

  // ---- candidates ---------------------------------------------------------------------------

  predicate TakenAt(seen: Schedule, j: nat, swept: set<Id>, asOf: int, unit: Id, stay: Stay) {
    !Free(Expire(seen(j).allocations, swept, asOf), unit, stay)
  }

  /** An insert fails for a reason no other candidate would cure. */
  predicate Hopeless(w: World, id: Id, stay: Stay) {
    !stay.NonEmpty() || id in w.allocations
  }

  /** From gap `from`, one candidate a gap was tried and found taken; `rest` is what
      remained at gap `looks`, where the walk stopped, or nothing. */
  ghost predicate Walked(seen: Schedule, from: nat, looks: nat, swept: set<Id>, asOf: int,
                         ids: seq<Id>, rest: seq<Id>, stay: Stay)
  {
    var refused := |ids| - |rest|;
    && 0 <= refused && rest == ids[refused..]
    && looks == from + refused + (if rest == [] then 0 else 1)
    && forall j | 0 <= j < refused :: TakenAt(seen, from + 1 + j, swept, asOf, ids[j], stay)
  }

  /** What the candidate query returns when it runs on `read`, in a transaction
      whose expiry swept these rows. */
  function Seen(read: World, swept: set<Id>, asOf: int, q: A.Query, listing: seq<Id>): seq<Id> {
    A.IdsOf(A.Candidates(read.units, Expire(read.allocations, swept, asOf), q, listing))
  }

  /** Some candidate read at gap `at` was free when its turn came. */
  ghost predicate SomeFreeInTurn(seen: Schedule, at: nat, swept: set<Id>, asOf: int, ids: seq<Id>, stay: Stay) {
    exists k :: 0 <= k < |ids| && !TakenAt(seen, at + 1 + k, swept, asOf, ids[k], stay)
  }

  lemma WalkFindsTheFree(seen: Schedule, from: nat, looks: nat, swept: set<Id>, asOf: int,
                         ids: seq<Id>, rest: seq<Id>, stay: Stay)
    requires Walked(seen, from, looks, swept, asOf, ids, rest, stay)
    ensures SomeFreeInTurn(seen, from, swept, asOf, ids, stay) ==> rest != []
    ensures rest != [] && !TakenAt(seen, looks, swept, asOf, rest[0], stay) ==>
              SomeFreeInTurn(seen, from, swept, asOf, ids, stay)
  {
    if rest != [] && !TakenAt(seen, looks, swept, asOf, rest[0], stay) {
      assert !TakenAt(seen, from + 1 + (|ids| - |rest|), swept, asOf, ids[|ids| - |rest|], stay);
    }
  }

  /** Every candidate passes the filters, and every unit that does is one. */
  lemma SeenTakes(read: World, swept: set<Id>, asOf: int, q: A.Query, listing: seq<Id>, unit: Id)
    ensures unit in Seen(read, swept, asOf, q, listing) ==>
              && unit in read.units
              && A.Takes(read.units[unit], q.category, q.stay, q.guests, q.pets, q.electricityAmp, q.accessible)
    ensures && A.Lists(listing, read.units) && unit in read.units
            && A.Takes(read.units[unit], q.category, q.stay, q.guests, q.pets, q.electricityAmp, q.accessible)
            && Free(Expire(read.allocations, swept, asOf), unit, q.stay)
            ==> unit in Seen(read, swept, asOf, q, listing)
  {
    var rows := Expire(read.allocations, swept, asOf);
    A.HostingTakes(read.units, rows, q, unit);
    if unit in Seen(read, swept, asOf, q, listing) {
      A.ListedHosts(read.units, rows, q, listing, unit);
    }
    if A.Lists(listing, read.units) {
      A.CandidatesAreHosting(read.units, rows, q, listing);
    }
  }

  /** A walk that found nothing tried every candidate and found it taken. */
  lemma WalkTriedAll(seen: Schedule, from: nat, looks: nat, swept: set<Id>, asOf: int, ids: seq<Id>, stay: Stay,
                     unit: Id)
    requires Walked(seen, from, looks, swept, asOf, ids, [], stay) && unit in ids
    ensures exists j: nat :: j > from && TakenAt(seen, j, swept, asOf, unit, stay)
  {
    var k :| 0 <= k < |ids| && ids[k] == unit;
    assert TakenAt(seen, from + 1 + k, swept, asOf, ids[k], stay);
  }

  // ---- holds --------------------------------------------------------------------------------

  predicate HoldMatches(c: HoldCall, req: HoldRequest, swept: set<Id>) {
    && c.category == req.category && c.stay == req.stay && c.swept == swept
    && c.token == req.token && c.deadline == req.Deadline() && c.asOf == req.asOf
  }

  /** The candidates a hold reads, its expiry having run at its first statement. */
  function HoldIds(seen: Schedule, req: HoldRequest, listing: seq<Id>): seq<Id> {
    Seen(seen(1), StaleIn(seen(0).allocations, req.category, req.asOf), req.asOf, req.Query(), listing)
  }

  /** How a hold came by its unit: on the first of the candidates it read that was
      not taken when it was tried, if any. */
  ghost predicate HoldTrail(seen: Schedule, looks: nat, req: HoldRequest, listing: seq<Id>, call: HoldCall) {
    Walked(seen, 1, looks, call.swept, req.asOf, HoldIds(seen, req, listing), call.candidates, req.stay)
  }

  /** The unit, as it was at that gap, takes the party. */
  ghost predicate HoldFits(w: World, req: HoldRequest, unit: Id) {
    && unit in w.units
    && A.Takes(w.units[unit], req.category, req.stay, req.adults + req.children, req.pets, req.electricityAmp,
               req.accessible)
  }

  /** The hold's row: on that unit for those nights, for a quarter of an hour from now. */
  ghost predicate HoldWritten(rows: Rows, req: HoldRequest, unit: Id) {
    && req.token in rows
    && rows[req.token] == Allocation(req.category, unit, AllocationKind.Hold, Held, req.stay,
                                     Some(req.now + 15 * 60), None, false)
  }

  /** Every unit that takes the party and was free when the candidates were read was found
      taken later. */
  ghost predicate HoldTriedAll(seen: Schedule, swept: set<Id>, req: HoldRequest) {
    forall unit | HoldFits(seen(1), req, unit) && !TakenAt(seen, 1, swept, req.asOf, unit, req.stay) ::
      exists j: nat :: j > 1 && TakenAt(seen, j, swept, req.asOf, unit, req.stay)
  }

  lemma HoldAnswers(seen: Schedule, looks: nat, req: HoldRequest, listing: seq<Id>, call: HoldCall)
    requires HoldTrail(seen, looks, req, listing, call)
    requires call.swept == StaleIn(seen(0).allocations, req.category, req.asOf)
    ensures call.candidates != [] ==> HoldFits(seen(1), req, call.candidates[0])
    ensures call.candidates == [] && A.Lists(listing, seen(1).units) ==> HoldTriedAll(seen, call.swept, req)
  {
    var ids := HoldIds(seen, req, listing);
    if call.candidates != [] {
      assert call.candidates[0] == ids[|ids| - |call.candidates|];
      SeenTakes(seen(1), call.swept, req.asOf, req.Query(), listing, call.candidates[0]);
    } else if A.Lists(listing, seen(1).units) {
      forall unit | HoldFits(seen(1), req, unit) && !TakenAt(seen, 1, call.swept, req.asOf, unit, req.stay)
        ensures exists j: nat :: j > 1 && TakenAt(seen, j, call.swept, req.asOf, unit, req.stay)
      {
        SeenTakes(seen(1), call.swept, req.asOf, req.Query(), listing, unit);
        WalkTriedAll(seen, 1, looks, call.swept, req.asOf, ids, req.stay, unit);
      }
    }
  }

  /** Nothing but want of a unit stands in the hold's way. */
  ghost predicate HoldUnhindered(seen: Schedule, req: HoldRequest) {
    req.stay.NonEmpty() && forall j: nat :: req.token !in seen(j).allocations
  }

  // ---- confirmations --------------------------------------------------------------------------

  predicate ConfirmMatches(c: ConfirmCall, req: ConfirmRequest) {
    && c.key == req.key && c.quoteId == req.quoteId && c.input == req.Input() && c.now == req.now
    && c.bookingId == req.bookingId && c.allocationId == req.allocationId && c.asOf == req.asOf
  }

  /** The quote can be confirmed and is for what is asked. */
  predicate GoodQuote(w: World, req: ConfirmRequest) {
    && req.quoteId in w.quotes && req.now < w.quotes[req.quoteId].expires
    && req.Input() == w.quotes[req.quoteId].input
  }

  predicate SameQuote(w: World, v: World, id: Id) {
    id in w.quotes && id in v.quotes && w.quotes[id] == v.quotes[id]
  }

  /** How many references can be tried. */
  function Tries(req: ConfirmRequest): nat {
    if |req.references| < REFERENCE_ATTEMPTS then |req.references| else REFERENCE_ATTEMPTS
  }

  /** Reference i was taken when it was tried, at gap 3 + i. */
  predicate ReferenceTaken(seen: Schedule, req: ConfirmRequest, i: nat)
    requires i < |req.references|
  {
    req.references[i] in References(seen(3 + i))
  }

  /** The quote was still there to select from at that gap. */
  predicate QuoteAt(seen: Schedule, req: ConfirmRequest, i: nat) {
    req.quoteId in seen(3 + i).quotes
  }

  ghost predicate FirstFreeReference(seen: Schedule, req: ConfirmRequest, i: nat) {
    i < Tries(req) && !ReferenceTaken(seen, req, i) && forall j: nat | j < i :: ReferenceTaken(seen, req, j)
  }

  /** The re-admission query a confirmation falls back on. */
  function Readmission(req: ConfirmRequest): A.Query {
    A.Query(req.category, req.Nights(), req.choices.adults + |req.choices.children|, req.choices.pets,
            req.electricityAmp, req.accessible)
  }

  /** The rows its expiry sees. */
  function ConfirmSweep(seen: Schedule, req: ConfirmRequest): set<Id> {
    StaleIn(seen(2).allocations, req.category, req.asOf)
  }

  function ReadmitIds(seen: Schedule, at: nat, swept: set<Id>, req: ConfirmRequest, listing: seq<Id>): seq<Id> {
    Seen(seen(at), swept, req.asOf, Readmission(req), listing)
  }

  predicate KeptAt(seen: Schedule, at: nat, swept: set<Id>, req: ConfirmRequest) {
    Convertible(Expire(seen(at).allocations, swept, req.asOf), req.holdToken, req.Nights(), req.asOf)
  }

  /** Re-admission from the list read at gap `at`: the first candidate not taken when
      it was tried, if any. */
  ghost predicate ReadmitTrail(seen: Schedule, at: nat, looks: nat, req: ConfirmRequest, listing: seq<Id>,
                               call: ConfirmCall)
  {
    && call.holdToken == None
    && Walked(seen, at, looks, call.swept, req.asOf, ReadmitIds(seen, at, call.swept, req, listing),
              call.candidates, req.Nights())
  }

  /** How a confirmation came by its occupancy, having looked at the hold at gap
      `at`: by converting it if it was still good, and by re-admission if not. */
  ghost predicate Trail(seen: Schedule, at: nat, looks: nat, req: ConfirmRequest, listing: seq<Id>, call: ConfirmCall) {
    if KeptAt(seen, at, call.swept, req)
    then looks == at && call.holdToken == req.holdToken && call.candidates == []
    else ReadmitTrail(seen, at + 1, looks, req, listing, call)
  }

  /** The trail led somewhere. */
  ghost predicate Arrived(seen: Schedule, at: nat, looks: nat, req: ConfirmRequest, call: ConfirmCall) {
    || KeptAt(seen, at, call.swept, req)
    || (call.candidates != [] && !TakenAt(seen, looks, call.swept, req.asOf, call.candidates[0], req.Nights()))
  }

  /** How a booking came about. */
  ghost predicate BookedBy(seen: Schedule, req: ConfirmRequest, listing: seq<Id>, looks: nat, atHold: nat,
                           call: ConfirmCall)
  {
    && call.swept == ConfirmSweep(seen, req) && Placeable(seen, atHold, req, listing)
    && atHold >= 4 && FirstFreeReference(seen, req, atHold - 4)
    && Trail(seen, atHold, looks, req, listing, call) && Arrived(seen, atHold, looks, req, call)
  }

  /** The unit, as it was at that gap, takes the whole party. */
  ghost predicate GuestFits(w: World, req: ConfirmRequest, unit: Id) {
    && unit in w.units
    && A.Takes(w.units[unit], req.category, req.choices.stay, req.choices.adults + |req.choices.children|,
               req.choices.pets, req.electricityAmp, req.accessible)
  }

  /** Every unit that takes the party and was free when the candidates were read, at gap
      `at`, was found taken later. */
  ghost predicate GuestTriedAll(seen: Schedule, at: nat, swept: set<Id>, req: ConfirmRequest) {
    forall unit | GuestFits(seen(at), req, unit) && !TakenAt(seen, at, swept, req.asOf, unit, req.choices.stay) ::
      exists j: nat :: j > at && TakenAt(seen, j, swept, req.asOf, unit, req.choices.stay)
  }

  lemma ReadmissionAnswers(seen: Schedule, at: nat, looks: nat, req: ConfirmRequest, listing: seq<Id>,
                           call: ConfirmCall)
    requires ReadmitTrail(seen, at, looks, req, listing, call)
    ensures call.candidates != [] ==> GuestFits(seen(at), req, call.candidates[0])
    ensures call.candidates == [] && A.Lists(listing, seen(at).units) ==> GuestTriedAll(seen, at, call.swept, req)
  {
    var ids, stay := ReadmitIds(seen, at, call.swept, req, listing), req.choices.stay;
    if call.candidates != [] {
      assert call.candidates[0] == ids[|ids| - |call.candidates|];
      SeenTakes(seen(at), call.swept, req.asOf, Readmission(req), listing, call.candidates[0]);
    } else if A.Lists(listing, seen(at).units) {
      forall unit | GuestFits(seen(at), req, unit) && !TakenAt(seen, at, call.swept, req.asOf, unit, stay)
        ensures exists j: nat :: j > at && TakenAt(seen, j, call.swept, req.asOf, unit, stay)
      {
        SeenTakes(seen(at), call.swept, req.asOf, Readmission(req), listing, unit);
        WalkTriedAll(seen, at, looks, call.swept, req.asOf, ids, stay, unit);
      }
    }
  }

  /** The guest stands on the unit of the hold, if that could be converted, and otherwise on
      one that takes the party. */
  ghost predicate GuestPlaced(seen: Schedule, at: nat, swept: set<Id>, req: ConfirmRequest, unit: Id) {
    if KeptAt(seen, at, swept, req) then
      && req.holdToken.Some? && req.holdToken.value in seen(at).allocations
      && unit == seen(at).allocations[req.holdToken.value].unit
    else GuestFits(seen(at + 1), req, unit)
  }

  /** There was a place for the guest when it was looked for: the hold, or a candidate
      free in its turn. */
  ghost predicate Placeable(seen: Schedule, at: nat, req: ConfirmRequest, listing: seq<Id>) {
    var swept := ConfirmSweep(seen, req);
    || KeptAt(seen, at, swept, req)
    || SomeFreeInTurn(seen, at + 1, swept, req.asOf, ReadmitIds(seen, at + 1, swept, req, listing), req.Nights())
  }

  lemma TrailFindsAPlace(seen: Schedule, at: nat, looks: nat, req: ConfirmRequest, listing: seq<Id>, call: ConfirmCall)
    requires Trail(seen, at, looks, req, listing, call) && call.swept == ConfirmSweep(seen, req)
    ensures Arrived(seen, at, looks, req, call) ==> Placeable(seen, at, req, listing)
    ensures Placeable(seen, at, req, listing) ==> KeptAt(seen, at, call.swept, req) || call.candidates != []
  {
    if !KeptAt(seen, at, call.swept, req) {
      ReadmissionFindsAPlace(seen, at + 1, looks, req, listing, call);
    }
  }

  lemma ReadmissionFindsAPlace(seen: Schedule, at: nat, looks: nat, req: ConfirmRequest, listing: seq<Id>,
                               call: ConfirmCall)
    requires ReadmitTrail(seen, at, looks, req, listing, call)
    ensures var ids := ReadmitIds(seen, at, call.swept, req, listing);
            && (SomeFreeInTurn(seen, at, call.swept, req.asOf, ids, req.Nights()) ==> call.candidates != [])
            && (call.candidates != [] && !TakenAt(seen, looks, call.swept, req.asOf, call.candidates[0], req.Nights())
                ==> SomeFreeInTurn(seen, at, call.swept, req.asOf, ids, req.Nights()))
  {
    WalkFindsTheFree(seen, at, looks, call.swept, req.asOf, ReadmitIds(seen, at, call.swept, req, listing),
                     call.candidates, req.Nights());
  }

  /** Why a quote was refused: in the order the checks are made. */
  ghost predicate QuoteCause(w: World, req: ConfirmRequest, error: Error) {
    match error
    case QuoteNotFound => req.quoteId !in w.quotes
    case QuoteExpired => req.quoteId in w.quotes && w.quotes[req.quoteId].expires <= req.now
    case QuoteMismatch =>
      && req.quoteId in w.quotes && req.now < w.quotes[req.quoteId].expires
      && req.Input() != w.quotes[req.quoteId].input
    case _ => false
  }

  /** What must have been so for each refusal before occupancy, at the look where it
      was decided. */
  ghost predicate EarlyCause(seen: Schedule, req: ConfirmRequest, looks: nat, error: Error) {
    match error
    case QuoteNotFound => looks == 1 && QuoteCause(seen(1), req, error)
    case QuoteExpired => looks == 1 && QuoteCause(seen(1), req, error)
    case QuoteMismatch => looks == 1 && QuoteCause(seen(1), req, error)
    case QuoteGone => GoodQuote(seen(1), req) && req.quoteId !in seen(looks).quotes
    case NoReference =>
      && GoodQuote(seen(1), req) && looks == 2 + Tries(req)
      && forall j: nat | j < Tries(req) :: ReferenceTaken(seen, req, j)
    case DuplicateKey =>
      GoodQuote(seen(1), req) && looks >= 3 && FirstFreeReference(seen, req, looks - 3) && req.key in seen(looks).byKey
    case NoLines =>
      && GoodQuote(seen(1), req) && looks >= 3 && FirstFreeReference(seen, req, looks - 3)
      && seen(1).quotes[req.quoteId].quote.lines == []
    case _ => false
  }

  /** The quote was good, and the booking was written under the first reference free. */
  ghost predicate Written(seen: Schedule, req: ConfirmRequest, looks: nat, reference: string, stored: StoredQuote) {
    && looks >= 3 && FirstFreeReference(seen, req, looks - 3) && reference == req.references[looks - 3]
    && GoodQuote(seen(1), req) && stored == seen(1).quotes[req.quoteId] && stored.quote.lines != []
  }

  /** The key has a booking, with the row a replay joins. */
  predicate Known(w: World, key: string) {
    key in w.byKey && w.byKey[key] in w.bookings && w.byKey[key] in w.owner && w.owner[w.byKey[key]] in w.allocations
  }

  /** And for each refusal at the end: a unique or foreign key found broken, or an
      insert that could not be made at all. */
  ghost predicate LateCause(seen: Schedule, req: ConfirmRequest, looks: nat, reference: string, error: Error) {
    match error
    case DuplicateKey => req.key in seen(looks).byKey || reference in References(seen(looks))
    case QuoteGone => !SameQuote(seen(1), seen(looks), req.quoteId)
    case BadInput =>
      !req.Nights().NonEmpty() || req.bookingId in seen(looks).bookings || req.allocationId in seen(looks).allocations
    case _ => false
  }

  /** Why a confirmation was refused: before occupancy; or, with the first reference
      free when tried, because there was no place when it was looked for, or because
      of a clash found at the end. */
  ghost predicate Cause(seen: Schedule, req: ConfirmRequest, listing: seq<Id>, looks: nat, atHold: nat, error: Error) {
    || EarlyCause(seen, req, looks, error)
    || (&& atHold >= 4 && FirstFreeReference(seen, req, atHold - 4)
        && ((error == HoldExpired && !Placeable(seen, atHold, req, listing))
            || LateCause(seen, req, looks, req.references[atHold - 4], error)))
  }

  /** Nothing but want of a place stands in the confirmation's way: the key and the
      identifiers are fresh, the quote is good and stays, and a reference free when
      tried is not taken afterwards. */
  ghost predicate Unhindered(seen: Schedule, req: ConfirmRequest) {
    && GoodQuote(seen(1), req) && seen(1).quotes[req.quoteId].quote.lines != [] && req.Nights().NonEmpty()
    && (exists i: nat | i < Tries(req) :: !ReferenceTaken(seen, req, i))
    && forall j: nat :: UnhinderedAt(seen, req, j)
  }

  ghost predicate UnhinderedAt(seen: Schedule, req: ConfirmRequest, j: nat) {
    && req.key !in seen(j).byKey && req.bookingId !in seen(j).bookings && req.allocationId !in seen(j).allocations
    && (j >= 1 ==> SameQuote(seen(1), seen(j), req.quoteId))
    && forall i: nat | i < Tries(req) && 3 + i <= j && !ReferenceTaken(seen, req, i) ::
         req.references[i] !in References(seen(j))
  }

  /** Then only want of a place can keep it from success. */
  lemma UnhinderedNeedsAPlace(seen: Schedule, req: ConfirmRequest, listing: seq<Id>, looks: nat, atHold: nat,
                              out: Outcome)
    requires Unhindered(seen, req)
    requires out.Refused? || (out.Replayed? && Known(seen(0), req.key))
    requires out.Refused? ==>
               looks >= 1 && looks >= atHold - 1 && Cause(seen, req, listing, looks, atHold, out.error)
    ensures atHold >= 4 && FirstFreeReference(seen, req, atHold - 4) && !Placeable(seen, atHold, req, listing)
  {
    assert UnhinderedAt(seen, req, 0) && UnhinderedAt(seen, req, looks);
  }
}
