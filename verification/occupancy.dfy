/** The occupancy machine: every committed transaction as one step on the tables. */
module Occupancy {
  import opened Dates
  import opened Options
  import opened Inventory
  import Ages
  import P = Pricing

  /** pricing.Request: the guest's choices, children by date of birth, and what the
      server fills in. */
  datatype PricingRequest = PricingRequest(
    stay: Stay, adults: int, children: seq<int>, pets: int, vehicles: int, campaign: string,
    leadDays: int, occupancyBP: int)

  /** Exactly what the guest chose. */
  datatype QuoteInput = QuoteInput(
    category: Id, stay: Stay, adults: int, children: seq<int>, pets: int, vehicles: int, campaign: string)

  /** The hash is taken to be injective, so it is modelled as what it hashes. */
  function InputHash(category: Id, r: PricingRequest): QuoteInput {
    QuoteInput(category, r.stay, r.adults, r.children, r.pets, r.vehicles, r.campaign)
  }

  function AgesOn(births: seq<int>, day: int): seq<int> {
    seq(|births|, i requires 0 <= i < |births| => Ages.AgeAt(births[i], day))
  }

  /** What the engine is given. */
  function ForEngine(r: PricingRequest): P.Request {
    P.Request(r.stay, r.adults, AgesOn(r.children, r.stay.arrival), r.pets, r.vehicles, r.leadDays, r.occupancyBP)
  }

  datatype StoredQuote = StoredQuote(input: QuoteInput, quote: P.Quote, expires: int)

  datatype BookingRow = BookingRow(
    reference: string, key: string, quoteId: Id, input: QuoteInput,
    grossMinor: int, netMinor: int, vatMinor: int)

  datatype What =
    | OnConfirmed(unit: Id) | OnCheckedIn | OnCheckedOut | OnCancelled | OnReassigned(from: Id, to: Id)

  datatype Event = Event(booking: Id, what: What)

  /** The tables, with the two unique indexes lookups go through: `byKey` is
      booking's on idempotency_key, `owner` unit_allocation_one_per_booking_idx.
      `owed` holds the keys of the confirmation messages in the outbox. */
  datatype World = World(
    units: map<Id, Unit>, allocations: Rows, bookings: map<Id, BookingRow>,
    byKey: map<string, Id>, owner: map<Id, Id>,
    quotes: map<Id, StoredQuote>, lines: map<Id, seq<P.Line>>, events: seq<Event>, owed: set<Id>,
    clock: int)

  datatype HoldCall = HoldCall(
    category: Id, stay: Stay, token: Id, deadline: int,
    asOf: int, swept: set<Id>, candidates: seq<Id>)

  datatype ConfirmCall = ConfirmCall(
    key: string, quoteId: Id, holdToken: Option<Id>, input: QuoteInput, now: int,
    bookingId: Id, allocationId: Id, references: seq<string>,
    asOf: int, swept: set<Id>, candidates: seq<Id>)

  /** A committed transaction. `asOf` is the time it began, which is what now()
      reads for its whole life; `swept` the rows its opportunistic expiry saw;
      `candidates` the list it read, arbitrarily stale by the time it commits;
      `seenOn` the unit a move's statement snapshot showed the booking on. */
  datatype Action =
    | Tick(to: int)
    | CreateQuote(quoteId: Id, category: Id, request: PricingRequest, leadDays: int, occupancyBP: int,
                  snapshot: P.Snapshot, expires: int)
    | PruneQuotes(asOf: int)
    | TakeHold(hold: HoldCall)
    | ReleaseHold(token: Id)
    | SweepHolds(asOf: int)
    | Confirm(confirm: ConfirmCall)
    | CheckIn(booking: Id)
    | CheckOut(booking: Id)
    | Cancel(booking: Id)
    | Reassign(booking: Id, unit: Id, seenOn: Id)
    | CreateBlock(block: Id, unit: Id, stay: Stay)
    | DeleteBlock(block: Id)

  datatype Error =
    | NoUnitAvailable | HoldExpired | QuoteNotFound | QuoteExpired | QuoteMismatch
    | NotFound | WrongState | Overlapping | BadInput | DuplicateKey | QuoteGone | NoReference | NoLines
    | NotPriced | StillReferenced

  datatype Outcome =
    | Done
    | Holding(unit: Id)
    | Booked(reference: string, unit: Id)
    | Replayed(reference: string)
    | Refused(error: Error)

  // ---- expiry -------------------------------------------------------------------------

  predicate Stale(a: Allocation, asOf: int) {
    a.kind == Hold && a.state == Held && a.deadline.Some? && a.deadline.value <= asOf
  }

  /** The rows an expiry statement that saw `ids` rewrites. */
  function Expire(rows: Rows, ids: set<Id>, asOf: int): (r: Rows)
    ensures r.Keys == rows.Keys
  {
    map i | i in rows :: if i in ids && Stale(rows[i], asOf) then rows[i].(state := Expired) else rows[i]
  }

  function StaleIn(rows: Rows, category: Id, asOf: int): set<Id> {
    set i | i in rows && Stale(rows[i], asOf) && rows[i].category == category
  }

  function AllStale(rows: Rows, asOf: int): set<Id> {
    set i | i in rows && Stale(rows[i], asOf)
  }

  // ---- first fit -----------------------------------------------------------------------

  /** Where the first insert survives. */
  function FirstFree(rows: Rows, candidates: seq<Id>, stay: Stay): (r: Option<nat>)
    ensures r.Some? ==> r.value < |candidates| && Free(rows, candidates[r.value], stay)
    ensures r.Some? ==> forall k | 0 <= k < r.value :: !Free(rows, candidates[k], stay)
    ensures r.None? ==> forall k | 0 <= k < |candidates| :: !Free(rows, candidates[k], stay)
  {
    if candidates == [] then None
    else if Free(rows, candidates[0], stay) then Some(0)
    else
      match FirstFree(rows, candidates[1..], stay)
      case None => None
      case Some(k) => Some(k + 1)
  }

  function HoldRow(c: HoldCall, unit: Id): Allocation {
    Allocation(c.category, unit, Hold, Held, c.stay, Some(c.deadline), None, false)
  }

  function BookedRow(category: Id, unit: Id, stay: Stay, booking: Id): Allocation {
    Allocation(category, unit, Booking, State.Confirmed, stay, None, Some(booking), false)
  }

  function DoHold(w: World, c: HoldCall): (World, Outcome) {
    if c.candidates == [] then (w, Refused(NoUnitAvailable))
    else if !c.stay.NonEmpty() || c.token in w.allocations then (w, Refused(BadInput))
    else
      var rows := Expire(w.allocations, c.swept, c.asOf);
      match FirstFree(rows, c.candidates, c.stay)
      case None => (w, Refused(NoUnitAvailable))
      case Some(k) =>
        (w.(allocations := rows[c.token := HoldRow(c, c.candidates[k])]), Holding(c.candidates[k]))
  }

  // ---- confirmation ----------------------------------------------------------------------

  function References(w: World): set<string> {
    set b | b in w.bookings :: w.bookings[b].reference
  }

  const REFERENCE_ATTEMPTS: nat := 5

  /** insertBooking's retry loop: the first of five references not yet taken. */
  function PickReference(taken: set<string>, tries: seq<string>, left: nat): (r: Option<string>)
    ensures r.Some? ==> r.value !in taken && r.value in tries
    decreases left
  {
    if left == 0 || tries == [] then None
    else if tries[0] !in taken then Some(tries[0])
    else PickReference(taken, tries[1..], left - 1)
  }

  /** Whether the presented hold can be turned into this booking's occupancy. */
  predicate Convertible(rows: Rows, token: Option<Id>, stay: Stay, asOf: int) {
    && token.Some? && token.value in rows
    && var a := rows[token.value];
       a.kind == Hold && a.state == Held && a.deadline.Some? && a.deadline.value > asOf && a.stay == stay
  }

  datatype Claimed = Claimed(rows: Rows, id: Id) | NothingFree

  function ClaimForBooking(rows: Rows, c: ConfirmCall): Claimed {
    var stay := c.input.stay;
    if Convertible(rows, c.holdToken, stay, c.asOf) then
      var a := rows[c.holdToken.value];
      Claimed(rows[c.holdToken.value :=
                   a.(kind := Booking, state := State.Confirmed, deadline := None, booking := Some(c.bookingId))],
              c.holdToken.value)
    else
      match FirstFree(rows, c.candidates, stay)
      case None => NothingFree
      case Some(k) =>
        Claimed(rows[c.allocationId := BookedRow(c.input.category, c.candidates[k], stay, c.bookingId)],
                c.allocationId)
  }

  /** Every refusal that comes before occupancy is claimed, in order. */
  function ConfirmRefusal(w: World, c: ConfirmCall): Option<Error> {
    if c.quoteId !in w.quotes then Some(QuoteNotFound)
    else if w.quotes[c.quoteId].expires <= c.now then Some(QuoteExpired)
    else if c.input != w.quotes[c.quoteId].input then Some(QuoteMismatch)
    else if c.bookingId in w.bookings || c.allocationId in w.allocations then Some(BadInput)
    else if PickReference(References(w), c.references, REFERENCE_ATTEMPTS) == None then Some(NoReference)
    else if w.quotes[c.quoteId].quote.lines == [] then Some(NoLines)
    else None
  }

  function NewBooking(w: World, c: ConfirmCall): BookingRow
    requires ConfirmRefusal(w, c) == None
  {
    var q := w.quotes[c.quoteId];
    var reference := PickReference(References(w), c.references, REFERENCE_ATTEMPTS).value;
    BookingRow(reference, c.key, c.quoteId, q.input,
               q.quote.totals.grossMinor, q.quote.totals.netMinor, q.quote.totals.vatMinor)
  }

  function WriteBooking(w: World, c: ConfirmCall, claimed: Claimed): World
    requires ConfirmRefusal(w, c) == None && claimed.Claimed? && claimed.id in claimed.rows
  {
    w.(allocations := claimed.rows,
       bookings := w.bookings[c.bookingId := NewBooking(w, c)],
       byKey := w.byKey[c.key := c.bookingId],
       owner := w.owner[c.bookingId := claimed.id],
       lines := w.lines[c.bookingId := w.quotes[c.quoteId].quote.lines],
       events := w.events + [Event(c.bookingId, OnConfirmed(claimed.rows[claimed.id].unit))],
       owed := w.owed + {c.bookingId})
  }

  function DoConfirm(w: World, c: ConfirmCall): (World, Outcome) {
    if c.key in w.byKey && w.byKey[c.key] in w.bookings then
      (w, Replayed(w.bookings[w.byKey[c.key]].reference))
    else if ConfirmRefusal(w, c).Some? then (w, Refused(ConfirmRefusal(w, c).value))
    else
      var claimed := ClaimForBooking(Expire(w.allocations, c.swept, c.asOf), c);
      if claimed.NothingFree? then (w, Refused(HoldExpired))
      else (WriteBooking(w, c, claimed),
            Booked(NewBooking(w, c).reference, claimed.rows[claimed.id].unit))
  }

  // ---- the front desk ----------------------------------------------------------------------

  /** A guarded update of the booking's one row, and its event. */
  function Transition(w: World, booking: Id, from: State, to: State, pin: bool, what: What): (World, Outcome) {
    if booking !in w.bookings then (w, Refused(NotFound))
    else if booking !in w.owner || w.owner[booking] !in w.allocations then (w, Refused(WrongState))
    else
      var id := w.owner[booking];
      var a := w.allocations[id];
      if a.state != from then (w, Refused(WrongState))
      else (w.(allocations := w.allocations[id := a.(state := to, pinned := a.pinned || pin)],
               events := w.events + [Event(booking, what)]),
            Done)
  }

  /** Whether the exclusion constraint lets the row move to the unit. */
  predicate MoveAllowed(rows: Rows, id: Id, unit: Id)
    requires id in rows
  {
    Free(rows - {id}, unit, rows[id].stay)
  }

  predicate SameCategory(units: map<Id, Unit>, unit: Id, a: Allocation) {
    unit in units && units[unit].category == a.category && units[unit].active
  }

  /** The update waits for the row and moves it from wherever it then is; the event
      says what the statement's snapshot said. */
  function Moved(w: World, booking: Id, id: Id, unit: Id, seenOn: Id): World
    requires id in w.allocations
  {
    w.(allocations := w.allocations[id := w.allocations[id].(unit := unit)],
       events := w.events + [Event(booking, OnReassigned(seenOn, unit))])
  }

  function DoReassign(w: World, booking: Id, unit: Id, seenOn: Id): (World, Outcome) {
    if booking !in w.bookings then (w, Refused(NotFound))
    else if booking !in w.owner || w.owner[booking] !in w.allocations then (w, Refused(WrongState))
    else
      var id := w.owner[booking];
      var a := w.allocations[id];
      if a.state != State.Confirmed && a.state != CheckedIn then (w, Refused(WrongState))
      else if !SameCategory(w.units, unit, a) then (w, Refused(WrongState))
      else if !MoveAllowed(w.allocations, id, unit) then (w, Refused(NoUnitAvailable))
      else (Moved(w, booking, id, unit, seenOn), Done)
  }

  // ---- blocks ----------------------------------------------------------------------------------

  function DoCreateBlock(w: World, block: Id, unit: Id, stay: Stay): (World, Outcome) {
    if unit !in w.units then (w, Refused(NotFound))
    else if !stay.NonEmpty() || block in w.allocations then (w, Refused(BadInput))
    else if !Free(w.allocations, unit, stay) then (w, Refused(Overlapping))
    else
      var a := Allocation(w.units[unit].category, unit, Block, State.Confirmed, stay, None, None, false);
      (w.(allocations := w.allocations[block := a]), Done)
  }

  function DoDeleteBlock(w: World, block: Id): (World, Outcome) {
    if block !in w.allocations || w.allocations[block].kind != Block then (w, Refused(NotFound))
    else (w.(allocations := w.allocations - {block}), Done)
  }

  function DoRelease(w: World, token: Id): (World, Outcome) {
    if token in w.allocations && w.allocations[token].kind == Hold && w.allocations[token].state == Held
    then (w.(allocations := w.allocations[token := w.allocations[token].(state := Expired)]), Done)
    else (w, Done)
  }

  function AddQuote(w: World, quoteId: Id, input: QuoteInput, priced: P.Result<P.Quote>,
                    expires: int): (World, Outcome)
  {
    if priced.Err? then (w, Refused(NotPriced))
    else if quoteId in w.quotes then (w, Refused(BadInput))
    else (w.(quotes := w.quotes[quoteId := StoredQuote(input, priced.value, expires)]), Done)
  }

  /** The hash is taken before the server fills in what the guest did not choose. */
  function DoQuote(w: World, quoteId: Id, category: Id, request: PricingRequest, leadDays: int,
                   occupancyBP: int, snapshot: P.Snapshot, expires: int): (World, Outcome)
  {
    var input := InputHash(category, request);
    var filled := request.(leadDays := leadDays, occupancyBP := occupancyBP);
    AddQuote(w, quoteId, input, P.Price(snapshot, ForEngine(filled)), expires)
  }

  const QUOTE_RETENTION: int := 30 * 24 * 3600

  function LongExpired(quotes: map<Id, StoredQuote>, asOf: int): set<Id> {
    set q | q in quotes && quotes[q].expires < asOf - QUOTE_RETENTION
  }

  /** One delete of everything long expired; a booking's reference to any of it
      fails the whole statement. */
  function DoPrune(w: World, asOf: int): (World, Outcome) {
    var aged := LongExpired(w.quotes, asOf);
    if exists b | b in w.bookings :: w.bookings[b].quoteId in aged then (w, Refused(StillReferenced))
    else (w.(quotes := w.quotes - aged), Done)
  }

  function Step(w: World, a: Action): (World, Outcome) {
    match a
    case Tick(to) => (if to > w.clock then w.(clock := to) else w, Done)
    case CreateQuote(id, category, request, lead, occupancy, snapshot, expires) =>
      DoQuote(w, id, category, request, lead, occupancy, snapshot, expires)
    case PruneQuotes(asOf) => DoPrune(w, asOf)
    case TakeHold(c) => DoHold(w, c)
    case ReleaseHold(token) => DoRelease(w, token)
    case SweepHolds(asOf) =>
      (w.(allocations := Expire(w.allocations, AllStale(w.allocations, asOf), asOf)), Done)
    case Confirm(c) => DoConfirm(w, c)
    case CheckIn(b) => Transition(w, b, State.Confirmed, CheckedIn, true, OnCheckedIn)
    case CheckOut(b) => Transition(w, b, CheckedIn, CheckedOut, false, OnCheckedOut)
    case Cancel(b) => Transition(w, b, State.Confirmed, Cancelled, false, OnCancelled)
    case Reassign(b, unit, seenOn) => DoReassign(w, b, unit, seenOn)
    case CreateBlock(block, unit, stay) => DoCreateBlock(w, block, unit, stay)
    case DeleteBlock(block) => DoDeleteBlock(w, block)
  }

  function Run(w: World, actions: seq<Action>): World {
    if actions == [] then w else Step(Run(w, actions[..|actions| - 1]), actions[|actions| - 1]).0
  }
}
