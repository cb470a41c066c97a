/** What the invariant and the steps mean for guests and staff, over whole runs. */
module OccupancyLaws {
  import opened Dates
  import opened Options
  import opened Inventory
  import opened Occupancy
  import opened OccupancyInvariant
  import Ages
  import P = Pricing
  import B = PricingBalance

  // ---- capacity ---------------------------------------------------------------------------

  function LiveOn(rows: Rows, category: Id, night: int): set<Id> {
    set i | i in rows && rows[i].category == category && Live(rows[i].state) && rows[i].stay.Covers(night)
  }

  function UnitsOf(units: map<Id, Unit>, category: Id): set<Id> {
    set u | u in units && units[u].category == category
  }

  lemma {:induction false} NoMoreRowsThanUnits(rows: Rows, ids: set<Id>, units: set<Id>)
    requires ids <= rows.Keys
    requires forall i | i in ids :: rows[i].unit in units
    requires forall i, j | i in ids && j in ids && i != j :: rows[i].unit != rows[j].unit
    ensures |ids| <= |units|
  {
    if i :| i in ids {
      NoMoreRowsThanUnits(rows, ids - {i}, units - {rows[i].unit});
    }
  }

  /** On every night a category's live rows never outnumber its units. */
  lemma NeverOversold(w: World, category: Id, night: int)
    requires Inv(w)
    ensures |LiveOn(w.allocations, category, night)| <= |UnitsOf(w.units, category)|
  {
    var rows, ids := w.allocations, LiveOn(w.allocations, category, night);
    forall i | i in ids ensures rows[i].unit in UnitsOf(w.units, category) {
      assert RowOk(w.units, rows[i]);
    }
    forall i, j | i in ids && j in ids && i != j ensures rows[i].unit != rows[j].unit {
      assert !Occupies(rows[j], rows[i].unit, rows[i].stay);
    }
    NoMoreRowsThanUnits(rows, ids, UnitsOf(w.units, category));
  }

  lemma ReachableIsSound(units: map<Id, Unit>, clock: int, actions: seq<Action>)
    requires PossibleRun(Opening(units, clock), actions)
    ensures Inv(Run(Opening(units, clock), actions))
  {
    OpeningIsSound(units, clock);
    RunKeeps(Opening(units, clock), actions);
  }

  // ---- steps and runs -------------------------------------------------------------------------

  lemma {:induction false} PrefixOfPossible(w: World, actions: seq<Action>, k: nat)
    requires PossibleRun(w, actions) && k <= |actions|
    ensures PossibleRun(w, actions[..k])
  {
    forall j | 0 <= j < k ensures Possible(Run(w, actions[..k][..j]), actions[..k][j]) {
      assert actions[..k][..j] == actions[..j];
    }
  }

  lemma ClockNeverRunsBack(w: World, a: Action)
    ensures w.clock <= Step(w, a).0.clock
  {
  }

  // ---- which rows a transaction can change -----------------------------------------------------

  /** The guards in the WHERE clauses: a row that fails them is left alone. */
  ghost predicate Leaves(a: Action, i: Id, row: Allocation) {
    match a
    case TakeHold(c) => !Stale(row, c.asOf)
    case ReleaseHold(token) => token != i || row.state != Held
    case SweepHolds(asOf) => !Stale(row, asOf)
    case Confirm(c) => !Stale(row, c.asOf) && (c.holdToken != Some(i) || row.state != Held)
    case CheckIn(b) => row.booking != Some(b) || row.state != State.Confirmed
    case CheckOut(b) => row.booking != Some(b) || row.state != CheckedIn
    case Cancel(b) => row.booking != Some(b) || row.state != State.Confirmed
    case Reassign(b, _, _) =>
      row.booking != Some(b) || (row.state != State.Confirmed && row.state != CheckedIn)
    case DeleteBlock(block) => block != i || row.kind != Block
    case _ => true
  }

  ghost predicate Same(rows: Rows, after: Rows, i: Id) {
    i in rows && i in after && after[i] == rows[i]
  }

  lemma ConfirmLeaves(w: World, c: ConfirmCall, i: Id)
    requires i in w.allocations && Leaves(Confirm(c), i, w.allocations[i])
    ensures Same(w.allocations, DoConfirm(w, c).0.allocations, i)
  {
    if i != c.allocationId {
      ClaimLeaves(Expire(w.allocations, c.swept, c.asOf), c, i);
    }
  }

  lemma ClaimLeaves(rows: Rows, c: ConfirmCall, i: Id)
    requires i in rows && i != c.allocationId && (c.holdToken != Some(i) || rows[i].state != Held)
    ensures ClaimForBooking(rows, c).Claimed? ==> Same(rows, ClaimForBooking(rows, c).rows, i)
  {
  }

  lemma TransitionLeaves(w: World, b: Id, from: State, to: State, pin: bool, e: What, i: Id)
    requires Linked(w.allocations, w.owner, w.bookings) && i in w.allocations
    requires w.allocations[i].booking != Some(b) || w.allocations[i].state != from
    ensures Same(w.allocations, Transition(w, b, from, to, pin, e).0.allocations, i)
  {
  }

  lemma ReassignLeaves(w: World, b: Id, unit: Id, seenOn: Id, i: Id)
    requires Linked(w.allocations, w.owner, w.bookings)
    requires i in w.allocations && Leaves(Reassign(b, unit, seenOn), i, w.allocations[i])
    ensures Same(w.allocations, DoReassign(w, b, unit, seenOn).0.allocations, i)
  {
  }

  lemma HoldLeaves(w: World, c: HoldCall, i: Id)
    requires i in w.allocations && Leaves(TakeHold(c), i, w.allocations[i])
    ensures Same(w.allocations, DoHold(w, c).0.allocations, i)
  {
  }

  lemma BlockLeaves(w: World, block: Id, unit: Id, stay: Stay, i: Id)
    requires i in w.allocations
    ensures Same(w.allocations, DoCreateBlock(w, block, unit, stay).0.allocations, i)
  {
  }

  lemma QuotingLeaves(w: World, a: Action)
    requires a.CreateQuote? || a.PruneQuotes?
    ensures Step(w, a).0.allocations == w.allocations
  {
  }

  lemma DeskStepLeaves(w: World, a: Action, i: Id)
    requires a.CheckIn? || a.CheckOut? || a.Cancel? || a.Reassign?
    requires Linked(w.allocations, w.owner, w.bookings)
    requires i in w.allocations && Leaves(a, i, w.allocations[i])
    ensures Same(w.allocations, Step(w, a).0.allocations, i)
  {
    match a
    case CheckIn(b) => TransitionLeaves(w, b, State.Confirmed, CheckedIn, true, OnCheckedIn, i);
    case CheckOut(b) => TransitionLeaves(w, b, CheckedIn, CheckedOut, false, OnCheckedOut, i);
    case Cancel(b) => TransitionLeaves(w, b, State.Confirmed, Cancelled, false, OnCancelled, i);
    case Reassign(b, unit, seenOn) => ReassignLeaves(w, b, unit, seenOn, i);
  }

  lemma RowStepLeaves(w: World, a: Action, i: Id)
    requires a.ReleaseHold? || a.SweepHolds? || a.DeleteBlock?
    requires i in w.allocations && Leaves(a, i, w.allocations[i])
    ensures Same(w.allocations, Step(w, a).0.allocations, i)
  {
  }

  lemma StepLeaves(w: World, a: Action, i: Id)
    requires Linked(w.allocations, w.owner, w.bookings)
    requires i in w.allocations && Leaves(a, i, w.allocations[i])
    ensures Same(w.allocations, Step(w, a).0.allocations, i)
  {
    match a
    case TakeHold(c) => HoldLeaves(w, c, i);
    case ReleaseHold(_) => RowStepLeaves(w, a, i);
    case SweepHolds(_) => RowStepLeaves(w, a, i);
    case Confirm(c) => ConfirmLeaves(w, c, i);
    case CreateBlock(block, unit, stay) => BlockLeaves(w, block, unit, stay, i);
    case DeleteBlock(_) => RowStepLeaves(w, a, i);
    case CreateQuote(_, _, _, _, _, _, _) => QuotingLeaves(w, a);
    case PruneQuotes(_) => QuotingLeaves(w, a);
    case CheckIn(_) => DeskStepLeaves(w, a, i);
    case CheckOut(_) => DeskStepLeaves(w, a, i);
    case Cancel(_) => DeskStepLeaves(w, a, i);
    case Reassign(_, _, _) => DeskStepLeaves(w, a, i);
    case _ =>
  }

  // ---- a hold is a reservation ------------------------------------------------------------------

  /** The transaction does not present this token. */
  predicate Spares(a: Action, token: Id) {
    match a
    case ReleaseHold(t) => t != token
    case Confirm(c) => c.holdToken != Some(token)
    case _ => true
  }

  ghost predicate Holds(rows: Rows, token: Id, row: Allocation, clock: int) {
    && token in rows && rows[token] == row
    && row.kind == Hold && row.state == Held && row.deadline.Some? && clock < row.deadline.value
  }

  lemma ExpireSpares(rows: Rows, ids: set<Id>, asOf: int, token: Id, row: Allocation, clock: int)
    requires Holds(rows, token, row, clock) && asOf <= clock
    ensures Holds(Expire(rows, ids, asOf), token, row, clock)
  {
  }

  lemma StepSparesHold(w: World, a: Action, token: Id, row: Allocation)
    requires Inv(w) && Possible(w, a) && Spares(a, token)
    requires Holds(w.allocations, token, row, w.clock)
    ensures token in Step(w, a).0.allocations && Step(w, a).0.allocations[token] == row
  {
    assert RowOk(w.units, row);
    StepLeaves(w, a, token);
  }

  /** However many transactions other clients commit, a hold nobody presents stays
      on its unit and nights until its deadline. */
  lemma {:induction false} HoldStays(w: World, actions: seq<Action>, token: Id, row: Allocation)
    requires Inv(w) && PossibleRun(w, actions)
    requires forall k | 0 <= k < |actions| :: Spares(actions[k], token)
    requires Holds(w.allocations, token, row, Run(w, actions).clock)
    ensures Holds(Run(w, actions).allocations, token, row, Run(w, actions).clock)
  {
    if actions != [] {
      var n := |actions| - 1;
      var before := Run(w, actions[..n]);
      ClockNeverRunsBack(before, actions[n]);
      PrefixOfPossible(w, actions, n);
      HoldStays(w, actions[..n], token, row);
      RunKeeps(w, actions[..n]);
      StepSparesHold(before, actions[n], token, row);
    }
  }

  /** A live hold presented for its own stay is converted where it stands. */
  lemma HoldConverts(v: World, d: ConfirmCall, token: Id, row: Allocation)
    requires Holds(v.allocations, token, row, v.clock) && d.asOf <= v.clock
    requires d.holdToken == Some(token) && d.input.stay == row.stay
    requires d.key !in v.byKey && ConfirmRefusal(v, d) == None
    ensures DoConfirm(v, d).1 == Booked(NewBooking(v, d).reference, row.unit)
    ensures DoConfirm(v, d).0.allocations
         == Expire(v.allocations, d.swept, d.asOf)
              [token := row.(kind := Booking, state := State.Confirmed, deadline := None,
                             booking := Some(d.bookingId))]
  {
    ExpireSpares(v.allocations, d.swept, d.asOf, token, row, v.clock);
  }

  /** So a guest who took a hold and confirms it in time gets that very unit,
      whatever everybody else did meanwhile and whatever else is free. */
  lemma HeldMeansBookable(w: World, c: HoldCall, held: World, actions: seq<Action>, v: World, d: ConfirmCall)
    requires Inv(w) && Possible(w, TakeHold(c)) && DoHold(w, c).1.Holding? && held == DoHold(w, c).0
    requires PossibleRun(held, actions) && forall k | 0 <= k < |actions| :: Spares(actions[k], c.token)
    requires v == Run(held, actions) && v.clock < c.deadline && d.asOf <= v.clock
    requires d.holdToken == Some(c.token) && d.input.stay == c.stay
    requires d.key !in v.byKey && ConfirmRefusal(v, d) == None
    ensures DoConfirm(v, d).1 == Booked(NewBooking(v, d).reference, DoHold(w, c).1.unit)
    ensures var rows := DoConfirm(v, d).0.allocations;
            && c.token in rows && rows[c.token].state == State.Confirmed && rows[c.token].stay == c.stay
            && rows[c.token].unit == DoHold(w, c).1.unit && rows[c.token].booking == Some(d.bookingId)
  {
    var row := HoldRow(c, DoHold(w, c).1.unit);
    StepKeeps(w, TakeHold(c));
    HoldStays(held, actions, c.token, row);
    HoldConverts(v, d, c.token, row);
  }

  // ---- sweeping --------------------------------------------------------------------------------------

  /** A hold still held whose deadline has come. */
  ghost predicate Lapsed(a: Allocation, asOf: int) {
    a.kind == Hold && a.state == Held && match a.deadline case Some(d) => asOf >= d case None => false
  }

  /** A sweep expires every hold past its deadline and changes nothing else, so
      none is left and sweeping again does nothing. */
  lemma SweepIsExact(rows: Rows, asOf: int)
    ensures var out := Expire(rows, AllStale(rows, asOf), asOf);
            && AllStale(out, asOf) == {}
            && (forall i | i in rows :: out[i] != rows[i] <==> Lapsed(rows[i], asOf))
            && (forall i | i in rows && Lapsed(rows[i], asOf) :: out[i] == rows[i].(state := Expired))
            && Expire(out, AllStale(out, asOf), asOf) == out
  {
  }

  /** The expiry at the top of a hold or a confirmation does the same for its one
      category, and no row of another changes. */
  lemma ScopedExpiryIsExact(rows: Rows, category: Id, asOf: int)
    ensures var out := Expire(rows, StaleIn(rows, category, asOf), asOf);
            && StaleIn(out, category, asOf) == {}
            && (forall i | i in rows :: out[i] != rows[i] <==> Lapsed(rows[i], asOf) && rows[i].category == category)
            && (forall i | i in rows && out[i] != rows[i] :: out[i] == rows[i].(state := Expired))
  {
  }

  /** At any moment a hold can be expired or used, never both and never neither. */
  lemma ExpiredOrUsable(rows: Rows, token: Id, asOf: int)
    requires token in rows && rows[token].kind == Hold && rows[token].state == Held && rows[token].deadline.Some?
    ensures Lapsed(rows[token], asOf) <==> !Convertible(rows, Some(token), rows[token].stay, asOf)
  {
  }

  // ---- what is written stays written -----------------------------------------------------------------

  ghost predicate Extends<K, V>(m: map<K, V>, n: map<K, V>) {
    forall k | k in m :: k in n && n[k] == m[k]
  }

  /** A quote outlives its month unless pruned after it. */
  ghost predicate QuotesKept(quotes: map<Id, StoredQuote>, later: map<Id, StoredQuote>, clock: int) {
    forall q | q in quotes && quotes[q].expires >= clock - QUOTE_RETENTION :: q in later && later[q] == quotes[q]
  }

  /** A quote a booking cites is there for good. */
  ghost predicate CitedKept(bookings: map<Id, BookingRow>, quotes: map<Id, StoredQuote>,
                            later: map<Id, StoredQuote>)
  {
    forall b | b in bookings && bookings[b].quoteId in quotes ::
      bookings[b].quoteId in later && later[bookings[b].quoteId] == quotes[bookings[b].quoteId]
  }

  /** Bookings, their lines and the event log only ever grow; quotes stay while they
      are cited or not long expired. */
  ghost predicate Remembers(w: World, v: World) {
    && Extends(w.bookings, v.bookings) && Extends(w.lines, v.lines)
    && QuotesKept(w.quotes, v.quotes, v.clock) && CitedKept(w.bookings, w.quotes, v.quotes)
    && Extends(w.byKey, v.byKey) && Extends(w.owner, v.owner)
    && w.events <= v.events && w.owed <= v.owed && w.units == v.units && w.clock <= v.clock
  }

  lemma ConfirmRemembers(w: World, c: ConfirmCall)
    requires w.owner.Keys == w.bookings.Keys == w.lines.Keys
    requires forall k | k in w.byKey :: w.byKey[k] in w.bookings
    ensures Remembers(w, DoConfirm(w, c).0)
  {
    if DoConfirm(w, c).1.Booked? {
      WriteRemembers(w, c, ClaimForBooking(Expire(w.allocations, c.swept, c.asOf), c));
    }
  }

  lemma WriteRemembers(w: World, c: ConfirmCall, claimed: Claimed)
    requires w.owner.Keys == w.bookings.Keys == w.lines.Keys
    requires ConfirmRefusal(w, c) == None && claimed.Claimed? && claimed.id in claimed.rows
    requires c.key !in w.byKey
    ensures Remembers(w, WriteBooking(w, c, claimed))
  {
  }

  /** The tables differ at most in their quotes. */
  lemma OnlyQuotesRemembers(w: World, quotes: map<Id, StoredQuote>)
    requires QuotesKept(w.quotes, quotes, w.clock) && CitedKept(w.bookings, w.quotes, quotes)
    ensures Remembers(w, w.(quotes := quotes))
  {
  }

  lemma OneMoreQuote(bookings: map<Id, BookingRow>, quotes: map<Id, StoredQuote>, id: Id, q: StoredQuote, clock: int)
    requires id !in quotes
    ensures QuotesKept(quotes, quotes[id := q], clock) && CitedKept(bookings, quotes, quotes[id := q])
  {
  }

  lemma QuoteRemembers(w: World, id: Id, input: QuoteInput, priced: P.Result<P.Quote>, expires: int)
    ensures Remembers(w, AddQuote(w, id, input, priced, expires).0)
  {
    if priced.Ok? && id !in w.quotes {
      OneMoreQuote(w.bookings, w.quotes, id, StoredQuote(input, priced.value, expires), w.clock);
      OnlyQuotesRemembers(w, w.quotes[id := StoredQuote(input, priced.value, expires)]);
    } else {
      OnlyQuotesRemembers(w, w.quotes);
      assert w.(quotes := w.quotes) == w;
    }
  }

  lemma TransitionRemembers(w: World, b: Id, from: State, to: State, pin: bool, e: What)
    ensures Remembers(w, Transition(w, b, from, to, pin, e).0)
  {
  }

  lemma ReassignRemembers(w: World, b: Id, unit: Id, seenOn: Id)
    ensures Remembers(w, DoReassign(w, b, unit, seenOn).0)
  {
  }

  lemma PruneRemembers(w: World, asOf: int)
    requires asOf <= w.clock
    ensures Remembers(w, DoPrune(w, asOf).0)
  {
    OnlyQuotesRemembers(w, DoPrune(w, asOf).0.quotes);
  }

  /** The tables differ at most in their allocations and the time. */
  lemma OnlyRowsRemembers(w: World, v: World)
    requires v == w.(allocations := v.allocations, clock := v.clock) && w.clock <= v.clock
    ensures Remembers(w, v)
  {
  }

  lemma RowsStepChanges(w: World, a: Action)
    requires a.TakeHold? || a.ReleaseHold? || a.CreateBlock? || a.DeleteBlock? || a.SweepHolds? || a.Tick?
    ensures OnlyRows(w, Step(w, a).0)
  {
    match a
    case TakeHold(c) => HoldChangesRows(w, c);
    case CreateBlock(block, unit, stay) => BlockChangesRows(w, block, unit, stay);
    case ReleaseHold(token) => ReleaseChangesRows(w, token);
    case DeleteBlock(block) => UnblockChangesRows(w, block);
    case _ =>
  }

  lemma ReleaseChangesRows(w: World, token: Id)
    ensures OnlyRows(w, DoRelease(w, token).0)
  {
  }

  lemma UnblockChangesRows(w: World, block: Id)
    ensures OnlyRows(w, DoDeleteBlock(w, block).0)
  {
  }

  ghost predicate OnlyRows(w: World, v: World) {
    v == w.(allocations := v.allocations, clock := v.clock) && w.clock <= v.clock
  }

  lemma HoldChangesRows(w: World, c: HoldCall)
    ensures OnlyRows(w, DoHold(w, c).0)
  {
  }

  lemma BlockChangesRows(w: World, block: Id, unit: Id, stay: Stay)
    ensures OnlyRows(w, DoCreateBlock(w, block, unit, stay).0)
  {
  }

  lemma DeskStepRemembers(w: World, a: Action)
    requires a.CheckIn? || a.CheckOut? || a.Cancel? || a.Reassign?
    ensures Remembers(w, Step(w, a).0)
  {
    match a
    case CheckIn(b) => TransitionRemembers(w, b, State.Confirmed, CheckedIn, true, OnCheckedIn);
    case CheckOut(b) => TransitionRemembers(w, b, CheckedIn, CheckedOut, false, OnCheckedOut);
    case Cancel(b) => TransitionRemembers(w, b, State.Confirmed, Cancelled, false, OnCancelled);
    case Reassign(b, unit, seenOn) => ReassignRemembers(w, b, unit, seenOn);
  }

  lemma StepRemembers(w: World, a: Action)
    requires w.owner.Keys == w.bookings.Keys == w.lines.Keys
    requires forall k | k in w.byKey :: w.byKey[k] in w.bookings
    requires Possible(w, a)
    ensures Remembers(w, Step(w, a).0)
  {
    match a
    case Confirm(c) => ConfirmRemembers(w, c);
    case CreateQuote(id, category, r, lead, occupancy, s, expires) =>
      QuoteRemembers(w, id, InputHash(category, r),
                     P.Price(s, ForEngine(r.(leadDays := lead, occupancyBP := occupancy))), expires);
    case PruneQuotes(asOf) => PruneRemembers(w, asOf);
    case CheckIn(_) => DeskStepRemembers(w, a);
    case CheckOut(_) => DeskStepRemembers(w, a);
    case Cancel(_) => DeskStepRemembers(w, a);
    case Reassign(_, _, _) => DeskStepRemembers(w, a);
    case _ => RowsStepChanges(w, a); OnlyRowsRemembers(w, Step(w, a).0);
  }

  lemma RemembersChain(w: World, u: World, v: World)
    requires Remembers(w, u) && Remembers(u, v)
    ensures Remembers(w, v)
  {
  }

  lemma IndexesAgree(w: World)
    requires Inv(w)
    ensures w.owner.Keys == w.bookings.Keys == w.lines.Keys
    ensures forall k | k in w.byKey :: w.byKey[k] in w.bookings
  {
  }

  lemma SoundStepRemembers(w: World, before: World, a: Action)
    requires Inv(before) && Possible(before, a) && Remembers(w, before)
    ensures Remembers(w, Step(before, a).0)
  {
    IndexesAgree(before);
    StepRemembers(before, a);
    RemembersChain(w, before, Step(before, a).0);
  }

  lemma {:induction false} RunRemembers(w: World, actions: seq<Action>)
    requires Inv(w) && PossibleRun(w, actions)
    ensures Remembers(w, Run(w, actions))
  {
    if actions != [] {
      var n := |actions| - 1;
      PrefixOfPossible(w, actions, n);
      var before := Run(w, actions[..n]);
      RunRemembers(w, actions[..n]);
      RunKeeps(w, actions[..n]);
      SoundStepRemembers(w, before, actions[n]);
    }
  }

  /** The booking of this reference was made under this key. */
  ghost predicate MadeUnder(w: World, key: string, reference: string) {
    key in w.byKey && w.byKey[key] in w.bookings && w.bookings[w.byKey[key]].reference == reference
  }

  lemma BookedIsMade(w: World, c: ConfirmCall)
    requires DoConfirm(w, c).1.Booked?
    ensures MadeUnder(DoConfirm(w, c).0, c.key, DoConfirm(w, c).1.reference)
  {
  }

  lemma MadeIsReplayed(v: World, d: ConfirmCall, reference: string)
    requires MadeUnder(v, d.key, reference)
    ensures DoConfirm(v, d) == (v, Replayed(reference))
  {
  }

  /** One key, one booking, for ever: once a confirmation under a key commits,
      any later one under it, whatever it asks and however much has happened
      since, returns the same reference and changes nothing. */
  lemma ConfirmIsIdempotent(w: World, c: ConfirmCall, actions: seq<Action>, d: ConfirmCall)
    requires Inv(w) && Possible(w, Confirm(c)) && DoConfirm(w, c).1.Booked? && d.key == c.key
    requires PossibleRun(DoConfirm(w, c).0, actions)
    ensures var v := Run(DoConfirm(w, c).0, actions);
            DoConfirm(v, d) == (v, Replayed(DoConfirm(w, c).1.reference))
  {
    var made, reference := DoConfirm(w, c).0, DoConfirm(w, c).1.reference;
    StepKeeps(w, Confirm(c));
    BookedIsMade(w, c);
    RunRemembers(made, actions);
    assert MadeUnder(Run(made, actions), c.key, reference);
    MadeIsReplayed(Run(made, actions), d, reference);
  }

  /** A refusal leaves no trace, not even of the expiry it tried. */
  lemma RefusalChangesNothing(w: World, a: Action)
    ensures Step(w, a).1.Refused? ==> Step(w, a).0 == w
    ensures Step(w, a).1.Replayed? ==> Step(w, a).0 == w
  {
  }

  /** A booking is a contract and its occupancy together: one row on the dates
      quoted, one message owed, lines that are the price of its own category,
      dates, party, extras and campaign and add up to the totals stored on it. */
  ghost predicate Whole(w: World, b: Id)
    requires b in w.bookings
  {
    var row := w.bookings[b];
    && b in w.owner && w.owner[b] in w.allocations
    && w.allocations[w.owner[b]].booking == Some(b)
    && (forall i | i in w.allocations && w.allocations[i].booking == Some(b) :: i == w.owner[b])
    && b in w.owed && b in w.lines && w.lines[b] != []
    && row.quoteId in w.quotes
    && row.input == w.quotes[row.quoteId].input && IsPriceOf(row.input, w.quotes[row.quoteId].quote)
    && w.lines[b] == w.quotes[row.quoteId].quote.lines
    && w.allocations[w.owner[b]].stay == row.input.stay
    && P.GrossOf(w.lines[b]) == row.grossMinor
    && P.NetOf(w.lines[b]) == row.netMinor
    && P.VATOf(w.lines[b]) == row.vatMinor
    && row.netMinor + row.vatMinor == row.grossMinor >= 0
  }

  /** Whatever was edited since, every booking is whole. */
  lemma BookingIsWhole(w: World, b: Id)
    requires Inv(w)
    ensures b in w.bookings ==> Whole(w, b)
  {
    if b in w.bookings {
      assert FrozenRow(w.bookings[b], w.lines[b], w.quotes[w.bookings[b].quoteId]);
      assert QuoteOk(w.quotes[w.bookings[b].quoteId]);
    }
  }

  /** The price is copied, never recomputed: after any further run, rate edits and
      fresh quotes included, the booking and its lines are what they were. */
  lemma PriceIsFrozen(w: World, actions: seq<Action>, b: Id)
    requires Inv(w) && PossibleRun(w, actions)
    ensures b in w.bookings ==>
              var v := Run(w, actions);
              && b in v.bookings && v.bookings[b] == w.bookings[b]
              && b in w.lines && b in v.lines && v.lines[b] == w.lines[b]
              && P.GrossOf(v.lines[b]) == v.bookings[b].grossMinor
  {
    RunRemembers(w, actions);
    BookingIsWhole(w, b);
  }

  /** The same category and the same choices, whatever the server filled in. */
  ghost predicate SameChoices(category: Id, r: PricingRequest, other: Id, q: PricingRequest) {
    category == other && q == r.(leadDays := q.leadDays, occupancyBP := q.occupancyBP)
  }

  /** What is hashed is the guest's choices and nothing else. */
  lemma HashIsTheChoices(category: Id, r: PricingRequest, other: Id, q: PricingRequest)
    ensures InputHash(category, r) == InputHash(other, q) <==> SameChoices(category, r, other, q)
  {
  }

  /** The engine is asked about the guest's own choices, and each child at the age its
      birthdays make it on the day of arrival. */
  lemma EngineSeesTheChoices(r: PricingRequest, i: nat, years: int)
    ensures var q := ForEngine(r);
            && q.stay == r.stay && q.adults == r.adults && q.pets == r.pets && q.vehicles == r.vehicles
            && q.leadDays == r.leadDays && q.occupancyBP == r.occupancyBP && |q.children| == |r.children|
            && (i < |r.children| ==>
                  (q.children[i] >= years <==> r.stay.arrival >= Ages.Birthday(r.children[i], years)))
  {
    if i < |r.children| {
      Ages.AgeIsBirthdays(r.children[i], r.stay.arrival, years);
    }
  }

  /** What is stored under a quote's id is what the engine charges for the choices hashed, at
      the lead time and occupancy given, and until when. */
  lemma StoresThePrice(w: World, id: Id, category: Id, r: PricingRequest, lead: int, occupancy: int, s: P.Snapshot,
                       expires: int)
    ensures var (v, out) := Step(w, CreateQuote(id, category, r, lead, occupancy, s, expires));
            var priced := P.Price(s, P.Request(r.stay, r.adults, AgesOn(r.children, r.stay.arrival), r.pets, r.vehicles,
                                               lead, occupancy));
            && (out.Done? <==> priced.Ok? && id !in w.quotes)
            && (out.Done? ==>
                  v == w.(quotes := w.quotes[id := StoredQuote(InputHash(category, r), priced.value, expires)]))
  {
  }

  /** A live quote, taken at whatever lead time and occupancy, mismatches exactly when
      the confirmation is for other choices than were priced; and the same request
      priced at another lead time and occupancy is refused and accepted alike. */
  lemma FreezeIgnoresTheServer(w: World, id: Id, category: Id, r: PricingRequest, lead: int, occupancy: int,
                               s: P.Snapshot, expires: int, other: Id, q: PricingRequest, c: ConfirmCall,
                               laterLead: int, laterOccupancy: int, t: P.Snapshot)
    requires c.quoteId == id && c.input == InputHash(other, q) && c.now < expires
    ensures var (v, out) := DoQuote(w, id, category, r, lead, occupancy, s, expires);
            var (u, again) := DoQuote(w, id, category, r, laterLead, laterOccupancy, t, expires);
            && (out.Done? ==> (ConfirmRefusal(v, c) == Some(QuoteMismatch) <==> !SameChoices(category, r, other, q)))
            && (out.Done? && again.Done? ==>
                  (ConfirmRefusal(v, c) == Some(QuoteMismatch) <==> ConfirmRefusal(u, c) == Some(QuoteMismatch)))
  {
    QuoteMismatches(w, id, category, r, lead, occupancy, s, expires, other, q, c);
    QuoteMismatches(w, id, category, r, laterLead, laterOccupancy, t, expires, other, q, c);
  }

  lemma QuoteMismatches(w: World, id: Id, category: Id, r: PricingRequest, lead: int, occupancy: int,
                        s: P.Snapshot, expires: int, other: Id, q: PricingRequest, c: ConfirmCall)
    requires c.quoteId == id && c.input == InputHash(other, q) && c.now < expires
    ensures var (v, out) := DoQuote(w, id, category, r, lead, occupancy, s, expires);
            out.Done? ==> (ConfirmRefusal(v, c) == Some(QuoteMismatch) <==> !SameChoices(category, r, other, q))
  {
    var (v, out) := DoQuote(w, id, category, r, lead, occupancy, s, expires);
    HashIsTheChoices(category, r, other, q);
    MismatchMeans(v, c);
    QuotedAs(w, id, InputHash(category, r), P.Price(s, ForEngine(r.(leadDays := lead, occupancyBP := occupancy))),
             expires);
  }

  lemma QuotedAs(w: World, id: Id, input: QuoteInput, priced: P.Result<P.Quote>, expires: int)
    ensures var (v, out) := AddQuote(w, id, input, priced, expires);
            out.Done? ==> id in v.quotes && v.quotes[id].input == input && v.quotes[id].expires == expires
  {
  }

  lemma MismatchMeans(w: World, c: ConfirmCall)
    ensures ConfirmRefusal(w, c) == Some(QuoteMismatch) <==>
              c.quoteId in w.quotes && c.now < w.quotes[c.quoteId].expires && c.input != w.quotes[c.quoteId].input
  {
  }

  // ---- pruning -----------------------------------------------------------------------------------------

  /** Old quotes go all together or not at all: together when no booking cites one of
      them, and then every other quote stays. */
  lemma PruneSucceedsExactlyWhen(w: World, asOf: int)
    ensures var (v, out) := Step(w, PruneQuotes(asOf));
            && (out.Done? <==>
                  forall b | b in w.bookings && w.bookings[b].quoteId in w.quotes ::
                    w.quotes[w.bookings[b].quoteId].expires >= asOf - 30 * 24 * 60 * 60)
            && (out.Done? ==>
                  && LongExpired(v.quotes, asOf) == {}
                  && forall q | q in w.quotes ::
                       (q in v.quotes <==> w.quotes[q].expires >= asOf - 30 * 24 * 60 * 60)
                       && (q in v.quotes ==> v.quotes[q] == w.quotes[q]))
            && (!out.Done? ==> v == w)
  {
  }

  /** So once some booking's quote is a month past its end, no prune ever removes
      anything again. */
  lemma PruningEnds(w: World, actions: seq<Action>, b: Id, asOf: int)
    requires Inv(w) && PossibleRun(w, actions)
    requires b in w.bookings && w.bookings[b].quoteId in w.quotes
    requires w.quotes[w.bookings[b].quoteId].expires < asOf - 30 * 24 * 60 * 60
    ensures Step(Run(w, actions), PruneQuotes(asOf)) == (Run(w, actions), Refused(StillReferenced))
  {
    RunRemembers(w, actions);
    StillCited(Run(w, actions), b, asOf);
  }

  lemma StillCited(w: World, b: Id, asOf: int)
    requires b in w.bookings && w.bookings[b].quoteId in LongExpired(w.quotes, asOf)
    ensures Step(w, PruneQuotes(asOf)) == (w, Refused(StillReferenced))
  {
  }

  // ---- the event log is the history ----------------------------------------------------------------------

  function Count(events: seq<What>, p: What -> bool): nat {
    if events == [] then 0
    else Count(events[..|events| - 1], p) + if p(events[|events| - 1]) then 1 else 0
  }

  lemma {:induction false} ReplayPrefix(events: seq<What>, k: nat)
    requires k <= |events| && Replay(events).At?
    ensures k > 0 ==> Replay(events[..k]).At?
    ensures Replay(events[..k]) != Impossible
    decreases |events|
  {
    if k == |events| {
      assert events[..k] == events;
    } else {
      var n := |events| - 1;
      assert events[..n][..k] == events[..k];
      if n > 0 {
        ReplayPrefix(events[..n], k);
      }
    }
  }

  /** A log that replays is a legal life: confirmed once and first, and checked in,
      out or cancelled exactly as the final state says. */
  lemma {:induction false} ReplayIsALife(events: seq<What>)
    requires Replay(events).At?
    ensures events != [] && events[0].OnConfirmed?
    ensures Count(events, (e: What) => e.OnConfirmed?) == 1
    ensures var s := Replay(events).state;
            && Count(events, (e: What) => e.OnCheckedIn?) == (if s == CheckedIn || s == CheckedOut then 1 else 0)
            && Count(events, (e: What) => e.OnCheckedOut?) == (if s == CheckedOut then 1 else 0)
            && Count(events, (e: What) => e.OnCancelled?) == (if s == Cancelled then 1 else 0)
  {
    var n := |events| - 1;
    var e := events[n];
    if Replay(events[..n]) == Nowhere {
      NowhereIsEmpty(events[..n]);
    } else {
      ReplayIsALife(events[..n]);
      assert events[0] == events[..n][0];
    }
  }

  lemma {:induction false} NowhereIsEmpty(events: seq<What>)
    requires Replay(events) == Nowhere
    ensures events == []
  {
  }

  /** Where a booking stood before each of its events. */
  lemma EachEventFollows(events: seq<What>, k: nat)
    requires Replay(events).At? && k < |events|
    ensures var before := Replay(events[..k]);
            && (events[k].OnReassigned? ==>
                  before.At? && (before.state == State.Confirmed || before.state == CheckedIn))
            && (events[k].OnCheckedIn? ==> before.At? && before.state == State.Confirmed)
            && (events[k].OnCheckedOut? ==> before.At? && before.state == CheckedIn)
            && (events[k].OnCancelled? ==> before.At? && before.state == State.Confirmed)
  {
    ReplayPrefix(events, k + 1);
    assert events[..k + 1][..k] == events[..k];
  }

  /** The log tells the whole of the booking's life, and its row agrees. */
  ghost predicate Chronicled(w: World, b: Id) {
    && b in w.owner && w.owner[b] in w.allocations
    && var a, told := w.allocations[w.owner[b]], EventsOf(w.events, b);
    && Replay(told) == At(a.state, a.unit)
    && Count(told, (e: What) => e.OnConfirmed?) == 1
    && (a.pinned <==> Count(told, (e: What) => e.OnCheckedIn?) == 1)
    && a.state != NoShow && a.state != Held && a.state != Expired
  }

  /** For every booking in every reachable state. */
  lemma LogIsComplete(w: World, b: Id)
    requires Inv(w)
    ensures b in w.bookings ==> Chronicled(w, b)
  {
    if b in w.bookings {
      OwnedIsBooked(w, b);
      ReplayIsALife(EventsOf(w.events, b));
    }
  }

  // ---- moves that race ---------------------------------------------------------------------------------

  /** Where the last of these moves went. */
  function LastMove(events: seq<What>): Option<Id> {
    if events == [] then None
    else
      match events[|events| - 1]
      case OnReassigned(_, to) => Some(to)
      case _ => LastMove(events[..|events| - 1])
  }

  /** A guest is where the last move went, or where they were before any. */
  lemma {:induction false} MovesLead(before: seq<What>, more: seq<What>)
    requires Replay(before).At? && Replay(before + more).At?
    ensures Replay(before + more).unit
         == if LastMove(more).Some? then LastMove(more).value else Replay(before).unit
  {
    if more == [] {
      assert before + more == before;
    } else {
      var n := |more| - 1;
      assert before + more == before + more[..n] + [more[n]];
      ReplayAppend(before + more[..n], more[n]);
      if Replay(before + more[..n]).At? {
        MovesLead(before, more[..n]);
      } else {
        NowhereAfter(before, more[..n]);
      }
    }
  }

  lemma NowhereAfter(before: seq<What>, more: seq<What>)
    requires Replay(before).At?
    ensures Replay(before + more) != Nowhere
  {
    assert before != [] && before + more != [];
  }

  lemma {:induction false} EventsSince(earlier: seq<Event>, later: seq<Event>, b: Id)
    requires earlier <= later
    ensures EventsOf(later, b) == EventsOf(earlier, b) + EventsOf(later[|earlier|..], b)
    decreases |later|
  {
    if |earlier| == |later| {
      assert later == earlier && later[|earlier|..] == [];
    } else {
      var n := |later| - 1;
      EventsSince(earlier, later[..n], b);
      var tail := later[|earlier|..];
      assert tail[..|tail| - 1] == later[..n][|earlier|..] && tail[|tail| - 1] == later[n];
    }
  }

  lemma SinceTheSnapshot(earlier: seq<Event>, later: seq<Event>, b: Id)
    requires earlier <= later && Replay(EventsOf(earlier, b)).At? && Replay(EventsOf(later, b)).At?
    ensures var saw, moved := Replay(EventsOf(earlier, b)).unit, LastMove(EventsOf(later[|earlier|..], b));
            Replay(EventsOf(later, b)).unit == saw <==> moved == None || moved == Some(saw)
  {
    EventsSince(earlier, later, b);
    MovesLead(EventsOf(earlier, b), EventsOf(later[|earlier|..], b));
  }

  /** A move whose statement snapshot was s and which gets the row's lock at v logs
      the unit the snapshot showed; and that is the place the guest is moved from
      exactly when no other move of the booking committed in between, or the last
      that did brought them back. */
  ghost predicate LogsWhatItSaw(s: World, v: World, b: Id, unit: Id) {
    && b in s.owner && s.owner[b] in s.allocations && s.events <= v.events
    && var saw := s.allocations[s.owner[b]].unit;
    && var place, moved := Replay(EventsOf(v.events, b)), LastMove(EventsOf(v.events[|s.events|..], b));
    && place.At? && (place.unit == saw <==> moved == None || moved == Some(saw))
    && var (u, out) := DoReassign(v, b, unit, saw);
       out.Done? ==> u.events == v.events + [Event(b, OnReassigned(saw, unit))]
  }

  /** The log has the booking where its row is. */
  ghost predicate Placed(w: World, b: Id) {
    && b in w.owner && w.owner[b] in w.allocations
    && Replay(EventsOf(w.events, b)) == At(w.allocations[w.owner[b]].state, w.allocations[w.owner[b]].unit)
  }

  lemma LogPlaces(w: World, b: Id)
    requires Inv(w)
    ensures b in w.bookings ==> Placed(w, b)
  {
    OwnedIsBooked(w, b);
  }

  lemma MoveIsLogged(v: World, b: Id, unit: Id, saw: Id)
    ensures var (u, out) := DoReassign(v, b, unit, saw);
            out.Done? ==> u.events == v.events + [Event(b, OnReassigned(saw, unit))]
  {
  }

  lemma PlacedMove(s: World, v: World, b: Id, unit: Id)
    requires Placed(s, b) && Placed(v, b) && s.events <= v.events
    ensures LogsWhatItSaw(s, v, b, unit)
  {
    SinceTheSnapshot(s.events, v.events, b);
    MoveIsLogged(v, b, unit, s.allocations[s.owner[b]].unit);
  }

  lemma BookingsStay(w: World, v: World, b: Id)
    requires Remembers(w, v) && b in w.bookings
    ensures b in v.bookings && v.bookings[b] == w.bookings[b] && w.events <= v.events
  {
  }

  lemma MoveStartsWhereItLooked(s: World, between: seq<Action>, b: Id, unit: Id)
    requires Inv(s) && PossibleRun(s, between)
    ensures b in s.bookings ==> LogsWhatItSaw(s, Run(s, between), b, unit)
  {
    if b in s.bookings {
      PlacedThroughout(s, between, b);
      PlacedMove(s, Run(s, between), b, unit);
    }
  }

  lemma PlacedThroughout(s: World, between: seq<Action>, b: Id)
    requires Inv(s) && PossibleRun(s, between) && b in s.bookings
    ensures Placed(s, b) && Placed(Run(s, between), b) && s.events <= Run(s, between).events
  {
    RunKeeps(s, between);
    RunRemembers(s, between);
    BookingsStay(s, Run(s, between), b);
    LogPlaces(s, b);
    LogPlaces(Run(s, between), b);
  }

  /** The move can be made: the booking's row is live and on its way or in house, and the
      unit is active, of the category and free of other rows for the stay. */
  predicate CanMove(w: World, b: Id, unit: Id) {
    && b in w.bookings && b in w.owner && w.owner[b] in w.allocations
    && var a := w.allocations[w.owner[b]];
    && (a.state == State.Confirmed || a.state == CheckedIn)
    && SameCategory(w.units, unit, a) && MoveAllowed(w.allocations, w.owner[b], unit)
  }

  /** A move that can be made is made, and leaves every other that could be made
      possible. */
  lemma OneMove(w: World, b: Id, unit: Id, seenOn: Id, other: Id)
    requires CanMove(w, b, unit)
    ensures var id := w.owner[b];
            DoReassign(w, b, unit, seenOn) == (Moved(w, b, id, unit, seenOn), Done)
    ensures CanMove(w, b, other) ==> CanMove(Moved(w, b, w.owner[b], unit, seenOn), b, other)
  {
    var id := w.owner[b];
    assert w.allocations[id := w.allocations[id].(unit := unit)] - {id} == w.allocations - {id};
  }

  /** Both moves were looked up before either committed, and both are made: the guest ends
      where the second sent them, and its event says it took them from where they first
      stood, though by then they stood where the first had sent them. */
  ghost predicate BothMoved(w: World, b: Id, first: Id, second: Id) {
    && b in w.owner && w.owner[b] in w.allocations
    && var row := w.allocations[w.owner[b]];
    && var (v, one) := DoReassign(w, b, first, row.unit);
    && var (u, two) := DoReassign(v, b, second, row.unit);
    && one.Done? && two.Done?
    && v.allocations == w.allocations[w.owner[b] := row.(unit := first)]
    && v.events == w.events + [Event(b, OnReassigned(row.unit, first))]
    && u.allocations == w.allocations[w.owner[b] := row.(unit := second)]
    && u.events == v.events + [Event(b, OnReassigned(row.unit, second))]
  }

  lemma RacingMovesBothSucceed(w: World, b: Id, first: Id, second: Id)
    requires CanMove(w, b, first) && CanMove(w, b, second)
    ensures BothMoved(w, b, first, second)
  {
    var id := w.owner[b];
    var start := w.allocations[id].unit;
    var v := Moved(w, b, id, first, start);
    OneMove(w, b, first, start, second);
    OneMove(v, b, second, start, second);
    assert v.allocations[id := v.allocations[id].(unit := second)]
        == w.allocations[id := w.allocations[id].(unit := second)];
  }

  lemma PlacedAfterMove(w: World, b: Id, start: Id, unit: Id)
    requires Placed(w, b)
    ensures var row := w.allocations[w.owner[b]];
            row.state == State.Confirmed || row.state == CheckedIn ==>
              Replay(EventsOf(w.events + [Event(b, OnReassigned(start, unit))], b)) == At(row.state, unit)
  {
    OneMoreEvent(w.events, b, OnReassigned(start, unit), b);
  }

  /** In every sound state, any two pitches a booking could be moved to can be given to it
      by two receptionists at once, and then the log says of the second move that it
      started where the first one did, not where the log had the guest. */
  lemma RacingMovesLogAStaleStart(w: World, b: Id, first: Id, second: Id)
    requires Inv(w) && CanMove(w, b, first) && CanMove(w, b, second)
    ensures BothMoved(w, b, first, second)
    ensures var row := w.allocations[w.owner[b]];
            var told := EventsOf(DoReassign(w, b, first, row.unit).0.events, b);
            Replay(told) == At(row.state, first) && (first != row.unit ==> Replay(told).unit != row.unit)
  {
    RacingMovesBothSucceed(w, b, first, second);
    LogPlaces(w, b);
    PlacedAfterMove(w, b, w.allocations[w.owner[b]].unit, first);
  }

  // ---- ends --------------------------------------------------------------------------------------------

  predicate Ended(s: State) {
    s == CheckedOut || s == Cancelled || s == Expired
  }

  /** No transaction's guard lets an ended row through. */
  lemma EndedIsLeft(units: map<Id, Unit>, a: Action, i: Id, row: Allocation)
    requires RowOk(units, row) && Ended(row.state)
    ensures Leaves(a, i, row)
  {
  }

  /** Checked out, cancelled and expired rows are never touched again. */
  lemma EndsAreFinal(w: World, a: Action, i: Id)
    requires Inv(w) && Possible(w, a)
    ensures i in w.allocations && Ended(w.allocations[i].state) ==> Same(w.allocations, Step(w, a).0.allocations, i)
  {
    if i in w.allocations && Ended(w.allocations[i].state) {
      EndedIsLeft(w.units, a, i, w.allocations[i]);
      StepLeaves(w, a, i);
    }
  }
}
