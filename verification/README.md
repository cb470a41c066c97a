# Bokarn in Dafny

Bokarn is the booking back end of a campsite operator. This project models the parts of it that carry
guarantees, and proves them:

- **Occupancy.** Stays, holds and maintenance blocks are rows of one table. An exclusion constraint on
  that table is the only concurrency authority. `occupancy.dfy` makes each committed transaction one step
  on the tables; `occupancy_invariant.dfy` proves what every step, and so every run, keeps;
  `occupancy_laws.dfy` and `occupancy_outcomes.dfy` say what that means for guests and staff.
  `booking_store.dfy` is the same transactions as methods of a store, statement by statement, on tables
  that other clients change between the statements; `schedules.dfy` says what each must answer given what
  it saw, and `interleaving.dfy` proves that each behaves as one step of one run.
- **Pricing.** `pricing.dfy` is the engine as functions and `pricing_engine.dfy` as the loops that compute
  it. `pricing_balance.dfy`, `pricing_monotone.dfy`, `pricing_adjusters.dfy` and `pricing_rules.dfy` prove
  that quotes balance, that prices are monotone, what adjusters may do and what each rule charges;
  `pricing_ledger.dfy` says line by line what a quote must be, and when a stay is refused and why.
  `ages.dfy` is how old a child is on arrival. `money.dfy`, `int64.dfy`, `split.dfy`, `split_machine.dfy`
  and `pricing_machine.dfy` are the integer arithmetic and the pro-rata split, exact and in 64 bits;
  `pricing_limits.dfy` is the whole engine in 64 bits, and when its quotes are the exact ones.
- **Fast forms and simple forms.** `assignment.dfy` (the neighbour gaps against idle nights, one pass
  against sorting), `availability.dfy` (the free count against the candidates against what a hold does),
  `calendar.dfy` (the compiled rate calendar against the seasons).
- **The outbox** (`outbox.dfy`) and the **invoice format** (`format.dfy`).

`dates.dfy`, `inventory.dfy`, `sorting.dfy`, `sums.dfy` and `options.dfy` hold what the others share.
`dafny verify dfyconfig.toml` checks everything.

## How to read the model

- A transaction commits whole or not at all; one that returns an error leaves no trace, not even of the
  expiry it began with. `asOf` is the time a transaction began, which is what `now()` reads throughout;
  `swept` is the set of rows its expiry statement saw; candidate lists may be arbitrarily old, and so may
  `seenOn`, the unit a move's statement snapshot showed before it waited for the row.
- In `booking_store.dfy` a method takes a `Schedule`: what other clients have committed by its first
  statement, its second, and so on. `History` and `LooksAt` in `interleaving.dfy` say where schedules come
  from: any sequence of other transactions, looked at in order.
- There is one clock and it does not run back. A hold's deadline is set from it and tested against it.
- A `PricingRequest` holds the guest's choices, children by date of birth, and two figures the server fills
  in. `InputHash` is taken to be injective on the choices, so it is modelled as the choices it hashes, and
  comparing hashes is comparing those. Identifiers and tokens are fresh; a clash is an error of the request
  (`BadInput`).
- Days are numbers and day 0 is Monday, 1 January of year 1. The engine is given ages on the day of arrival.
- The pricing pipeline is over unbounded integers; `pricing_machine.dfy` and `pricing_limits.dfy` say when 64
  bits agree with it.

Where the code and what is promised of it part:

- The search and the candidate query read a missing amperage differently. The count equals the number of
  candidates exactly when the amperage asked is not negative or every unit that could host states one
  (`Availability.CountMatchesCandidates`, with an input in `Availability.NegativePowerDisagrees`).
- A message whose send the transport refused is never delivered. Its row in the message log stays, the next
  pass that renders the mail inserts a second one, and that fails the pass's transaction: nothing commits,
  not even the attempt. So delivered does mean sent (`Outbox.SentOnceIfDelivered`), but a message can still
  arrive exactly when it has, or is not stuck and has attempts left (`Outbox.ArrivesUnlessStuck`), a stuck
  one is retried without bound (`Outbox.RetriesWithoutBound`), and while it is the longest due nothing due
  later goes out (`Outbox.NothingLaterGoesOut`, with a queue in `Outbox.RefusedSendBlocksTheQueue`).
- Two moves of one booking that race both succeed, and the second logs a start the guest had left: in every
  sound state, for any two pitches it could be moved to (`OccupancyLaws.RacingMovesLogAStaleStart`). What is
  logged is what the statement's snapshot showed, which is the place the guest is moved from exactly when no
  other move of the booking committed in between, or the last one brought them back
  (`OccupancyLaws.MoveStartsWhereItLooked`). The targets logged are always right.
- Pruning is one delete and a booking restricts its quote, so it succeeds exactly when no booking cites a quote
  a month past its end (`OccupancyLaws.PruneSucceedsExactlyWhen`). Once one does, no prune removes anything
  again (`OccupancyLaws.PruningEnds`).
- A recompilation reads the seasons twice. It leaves the calendar of the seasons as they then stand exactly
  when each night they cover had the same winner when the insert ran, or no cover and that row already
  (`Calendar.CompilesExactlyWhen`); a season committed in between leaves its nights closed
  (`Calendar.LateSeasonIsMissed`).
- `SplitProRata` checks no overflow. It is the split promised whenever no product and no total passes 64 bits
  (`SplitMachine.SplitProRata`). A product that wraps spoils it, unless it is only the first weight's, for
  weights summing to less than a third of 2^64 (`SplitMachine.WrappedProductFails`); so where the first weight
  is not larger than all the others, not wrapping is the exact condition (`SplitMachine.SplitsExactlyInRange`).
  For any input at all the parts add up, in the register, exactly when the leftover did not turn negative
  (`SplitMachine.PartsAddUpExactlyWhen`, with parts of the wrong sign in `SplitMachine.OutOfRangeFails`).
- The request validators alone do not keep a price inside 64 bits: the product of a rate and a head count
  wraps unseen (`PricingMachine.HugeRatesWrapUnseen`), and so does a gross amount times 10000 when VAT is
  backed out of it (`PricingMachine.HugeGrossWraps`).
- `Add` misses one overflow, the minimum added to itself, and `mul` one, the minimum times minus one
  (`Int64.AddIsExactOrRefused`, `Int64.MulIsExactOrRefused`). `MulBP` is exact within the
  limits unless the product is less than half a divisor from one (`Money.MulBPMachineExact`). The smallest
  amount prints with a second and a third minus sign, `--92 233 720 368 547 758,-8` (`Format.ReadsBack`).

## Model

| member | source | states |
|---|---|---|
| OccupancyInvariant.StepKeeps | migrations/004_occupancy.sql:30-80 | every committed transaction, with candidate lists however stale, keeps the whole invariant: no two live rows share a unit and night, rows meet their checks, bookings and rows pair up, keys and references name one booking, lines are the quote's, every quote is the price of its own input, the log replays to the rows |
| OccupancyInvariant.RunKeeps | internal/booking/service_hold.go:38-44 | so does every run of them |
| OccupancyInvariant.OpeningIsSound | migrations/004_occupancy.sql:21-81 | an operator with an inventory and nothing in it starts inside the invariant |
| OccupancyInvariant.HoldKeeps | internal/booking/service_hold.go:50-113 | taking a hold keeps all of it that is about rows, bookings and logs, as do the transactions below |
| OccupancyInvariant.ReleaseKeeps | internal/booking/service_hold.go:177-190 | releasing a hold keeps it |
| OccupancyInvariant.SweepKeeps | internal/booking/service_hold.go:199-215 | sweeping keeps it |
| OccupancyInvariant.ConfirmKeeps | internal/booking/service_confirm.go:98-252 | confirming keeps it, by conversion or re-admission |
| OccupancyInvariant.TransitionKeeps | internal/booking/service_frontdesk.go:89-136 | check-in, check-out and cancellation keep it, the pin following the state |
| OccupancyInvariant.ReassignKeeps | internal/booking/service_frontdesk.go:170-233 | a move keeps it, category included, wherever its snapshot showed the guest |
| OccupancyInvariant.CreateBlockKeeps | internal/inventory/store_blocks.go:19-51 | a block keeps it |
| OccupancyInvariant.DeleteBlockKeeps | internal/inventory/store_blocks.go:56-71 | deleting one keeps it |
| OccupancyInvariant.QuoteKeeps | internal/pricing/service_quote.go:47-122 | a stored quote balances and has its nights, because everything Price returns does |
| OccupancyInvariant.QuoteKeepsPrices | internal/pricing/service_quote.go:47-122 | and it is what the engine charges, under a snapshot of that category and campaign and at some lead time and occupancy, for the very choices stored with it |
| OccupancyInvariant.StepKeepsPrices | internal/pricing/service_quote.go:40-46 | which stays so of every stored quote under every transaction |
| OccupancyInvariant.PruneKeeps | internal/pricing/jobs.go:51-75 | pruning keeps the invariant |
| OccupancyInvariant.ClaimIsOne | internal/booking/service_confirm.go:459-525 | occupancy for a booking is one row, converted or inserted, on the quoted nights, clashing with nothing, and no other row changes |
| OccupancyLaws.NeverOversold | migrations/004_occupancy.sql:77-80 | on every night a category's live rows never outnumber its units |
| OccupancyLaws.ReachableIsSound | migrations/004_occupancy.sql:77-80 | every state any interleaving reaches from opening day satisfies the invariant |
| OccupancyLaws.HoldStays | internal/booking/store.go:88-102 | however many transactions others commit, a hold nobody presents stays on its unit and nights until its deadline |
| OccupancyLaws.HoldConverts | internal/booking/service_confirm.go:466-489 | a live hold presented for its own stay is converted in place whatever else is free |
| OccupancyLaws.HeldMeansBookable | internal/booking/service_hold.go:31-44 | taking a hold and confirming with it in time obtains that very unit after any run of others |
| OccupancyLaws.SweepIsExact | internal/booking/service_hold.go:199-215 | a sweep expires exactly the holds past their deadline, leaves none, and repeating it does nothing |
| OccupancyLaws.ScopedExpiryIsExact | internal/booking/store.go:79-102 | the opportunistic expiry does the same for one category and touches no other |
| OccupancyLaws.ExpiredOrUsable | internal/booking/service_confirm.go:466-474 | at any moment a held hold can be expired or converted, never both and never neither |
| OccupancyLaws.RunRemembers | migrations/010_booking.sql:148-156 | bookings, lines, keys and events only ever grow over a run, and a quote stays while a booking cites it or it is not a month past its end |
| OccupancyLaws.ConfirmIsIdempotent | internal/booking/service_confirm.go:105-113 | once a confirmation under a key commits, any later one under it, after any run, returns the same reference and changes nothing |
| OccupancyLaws.RefusalChangesNothing | internal/booking/service_confirm.go:87-97 | a refused or replayed transaction leaves every table as it was |
| OccupancyLaws.BookingIsWhole | migrations/010_booking.sql:66-69 | every booking has exactly one row on the quoted dates, one message owed, and a non-empty list of lines that is the price of its own category, dates, party, extras and campaign and adds up to its stored totals |
| OccupancyLaws.PriceIsFrozen | internal/booking/service_confirm.go:330-368 | after any run, rate edits included, a booking and its lines are what they were |
| OccupancyLaws.FreezeIgnoresTheServer | internal/pricing/service_quote.go:59-67 | whatever lead time, occupancy and rates a request was priced at, confirming its live quote mismatches exactly when the choices confirmed are not the choices priced, so pricing it at others accepts and refuses alike |
| OccupancyLaws.HashIsTheChoices | internal/pricing/service_quote.go:59-67 | two requests hash alike exactly when they differ in lead time and occupancy at most |
| OccupancyLaws.EngineSeesTheChoices | internal/pricing/service_quote.go:47-122 | the engine is given the guest's own choices, each child at the age its birthdays make it on arrival |
| OccupancyLaws.StoresThePrice | internal/pricing/service_quote.go:47-122 | a quote is stored exactly when the engine prices the choices, and what is stored is that price under their hash |
| OccupancyLaws.PruneSucceedsExactlyWhen | internal/pricing/jobs.go:51-75 | a prune succeeds exactly when no booking cites a quote a month past its end, and then takes all of those and no other |
| OccupancyLaws.PruningEnds | internal/pricing/jobs.go:51-75 | after any run, a booking whose quote is a month past its end makes every prune fail whole |
| OccupancyLaws.LogIsComplete | internal/booking/store.go:105-121 | replaying a booking's events, by where each move went, gives its row's state and unit; it is pinned exactly when checked in once; held, expired and no-show are never a booking's state |
| OccupancyLaws.ReplayIsALife | internal/booking/service_frontdesk.go:16-70 | a log that replays confirms once and first, and checks in, out or cancels at most once and as its end says |
| OccupancyLaws.EachEventFollows | internal/booking/service_frontdesk.go:184-223 | each event happens in a state that allows it |
| OccupancyLaws.MoveStartsWhereItLooked | internal/booking/service_frontdesk.go:178-199 | a move logs the unit its statement snapshot showed, and that is where the guest is moved from exactly when the last move committed since, if any, left them there |
| OccupancyLaws.RacingMovesLogAStaleStart | internal/booking/service_frontdesk.go:178-199 | in every sound state any two moves a booking could make, both looked up before either commits, both succeed, and the second is logged from where the first started though the log has the guest where the first went |
| OccupancyLaws.EndsAreFinal | internal/booking/service_frontdesk.go:97-110 | checked-out, cancelled and expired rows are never touched again |
| OccupancyOutcomes.HoldSucceedsExactlyWhen | internal/booking/service_hold.go:70-113 | a hold is taken exactly when, stale holds gone, some candidate is free, and adds one row and changes none |
| OccupancyOutcomes.ConfirmSucceedsExactlyWhen | internal/booking/service_confirm.go:115-205 | under a fresh key a booking is made exactly when the quote is live and matches, a reference can be had, and the hold is good or a candidate free; only want of a place is reported as a hold gone |
| OccupancyOutcomes.DeskFollowsTheLog | internal/booking/service_frontdesk.go:89-161 | check-in, check-out and cancel succeed exactly when the log allows them next, and refusals say whether the booking exists |
| OccupancyOutcomes.MoveFollowsTheLog | internal/booking/service_frontdesk.go:170-233 | a move succeeds exactly when the log allows it and the target is active, of the category and empty for the stay; only the unit changes |
| OccupancyOutcomes.CancelFreesThePitch | internal/booking/service_frontdesk.go:52-70 | after a cancellation nothing occupies the nights |
| OccupancyOutcomes.StayedNightsAreKept | migrations/004_occupancy.sql:77-80 | a guest checked in or checked out keeps every night of the stay |
| OccupancyOutcomes.ReleaseUndoesHold | internal/booking/service_hold.go:172-190 | releasing a hold leaves every unit as free as if it had not been taken |
| OccupancyOutcomes.DeleteUndoesCreate | internal/inventory/store_blocks.go:12-71 | a block goes in exactly where nothing stands, and deleting it restores every table |
| BookingStore.Store.constructor | migrations/004_occupancy.sql:21-81 | the tables a deployment starts with are empty and sound |
| BookingStore.Store.Claim | internal/booking/service_hold.go:137-171 | walks the candidates amid other commits: the first free when tried is got, none is got exactly when each was taken when tried, and it breaks off exactly when the row could go in nowhere |
| BookingStore.Store.Hold | internal/booking/service_hold.go:50-113 | success is the atomic step after the others' commits, on a unit that as read takes the whole party, for a quarter of an hour; no unit means every unit that takes the party and was free when read was taken when tried; unhindered it succeeds exactly when a candidate was free in its turn; refusal leaves only their commits |
| BookingStore.Store.ReleaseHold | internal/booking/service_hold.go:177-190 | exactly the release step; a hold already gone is no error |
| BookingStore.Store.SweepHolds | internal/booking/service_hold.go:199-215 | exactly the sweep step, reporting how many holds it expired |
| BookingStore.Store.InsertBooking | internal/booking/service_confirm.go:280-328 | the first of five references free when tried; a taken key, a quote gone and five collisions are errors, each with its cause |
| BookingStore.Store.ConvertHold | internal/booking/service_confirm.go:466-489 | converts exactly when the hold is held, unexpired and for this stay |
| BookingStore.Store.Readmit | internal/booking/service_confirm.go:491-525 | re-admission on a fresh candidate list for the whole party, first fit amid other commits; lost exactly when each candidate was taken when tried |
| BookingStore.Store.Prepare | internal/booking/service_confirm.go:105-181 | a replay exactly when the key is known, else a refusal with its cause, else a good quote and the first reference free when tried |
| BookingStore.Store.Occupy | internal/booking/service_confirm.go:459-525 | the hold if it could be converted when looked at, otherwise re-admission |
| BookingStore.Store.Finish | internal/booking/service_confirm.go:187-252 | everything commits as one step unless a key, a reference, the quote or the row clashes |
| BookingStore.Store.Place | internal/booking/service_confirm.go:182-252 | a booked guest had a place when it was looked for; a hold reported gone means there was none |
| BookingStore.Store.Confirm | internal/booking/service_confirm.go:98-252 | success is one atomic step after the others' commits, and failure leaves only theirs; every refusal was true of the tables at the look where it was decided; the guest stands on the unit of the hold, if it could be converted, and otherwise on one that as read takes adults and children together, their pets, power and access on every night; a hold reported gone means each such unit free when read was taken when tried; with a fresh key, a good quote and a reference to be had it succeeds exactly when the hold could be converted or a candidate was free in its turn |
| Schedules.WalkFindsTheFree | internal/booking/service_hold.go:137-171 | a walk stops at something exactly when some candidate was free in its turn |
| Schedules.UnhinderedNeedsAPlace | internal/booking/service_confirm.go:98-252 | of all the causes of refusal only want of a place is left when nothing else stands in the way |
| Schedules.SeenTakes | internal/assignment/store.go:98-112 | each candidate read takes the party, and each unit that does and is free is read |
| Schedules.HoldAnswers | internal/booking/service_hold.go:45-80 | a hold looks for adults and children together, and gives up only when all that take them were found taken |
| Schedules.ReadmissionAnswers | internal/booking/service_confirm.go:488-505 | so does a re-admission |
| BookingStore.BookedStands | internal/booking/service_confirm.go:459-525 | where a booked guest stands: the unit of the hold, or one that takes the party |
| BookingStore.Store.Commit | internal/booking/service_confirm.go:135-248 | booking, lines, row, event and owed message appear together |
| BookingStore.Store.ByIdempotencyKey | internal/booking/service_confirm.go:534-564 | a key already used answers with the booking's reference, category and totals and its row's state and dates as they now are |
| BookingStore.Store.LoadQuote | internal/booking/service_confirm.go:115-136 | a quote that is live and for these choices is returned; unknown, expired and mismatched each exactly when it is so and nothing earlier is |
| BookingStore.Store.Transition | internal/booking/service_frontdesk.go:89-161 | the guarded update and its event, or not found, or wrong state |
| BookingStore.Store.CheckIn | internal/booking/service_frontdesk.go:22-34 | from confirmed to checked in, pinning the unit |
| BookingStore.Store.CheckOut | internal/booking/service_frontdesk.go:39-50 | from checked in to checked out, still pinned |
| BookingStore.Store.Cancel | internal/booking/service_frontdesk.go:59-71 | from confirmed to cancelled |
| BookingStore.Store.Reassign | internal/booking/service_frontdesk.go:170-233 | moves the unit from wherever it is when the row is had, and logs where the snapshot showed it, or refuses |
| BookingStore.Store.CreateBlock | internal/inventory/store_blocks.go:19-51 | a row on the unit, or unknown unit, or overlap |
| BookingStore.Store.DeleteBlock | internal/inventory/store_blocks.go:56-71 | removes a block and nothing that is not one |
| Interleaving.HoldIsSerial | internal/booking/service_hold.go:31-44 | a hold run among any commits of others leaves the tables where one run of atomic steps leaves them |
| Interleaving.ConfirmIsSerial | internal/booking/service_confirm.go:84-97 | so does a confirmation |
| Interleaving.LiveHoldIsNeverLost | internal/booking/service_confirm.go:446-458 | confirming with a hold inside its deadline always has a place, whatever commits in between, and a booking so made is that hold converted |
| Interleaving.QuotesDoStay | internal/booking/service_confirm.go:301-315 | a quote once read is still there, unchanged, at every later look until a month past its end |
| Assignment.Best | internal/assignment/assignment.go:85-99 | one pass finds the least cost, ties to the lower unit id; nothing found exactly for an empty list |
| Assignment.BestIsUnique | internal/assignment/assignment_test.go:58-79 | with one candidate per unit the best does not depend on the order listed |
| Assignment.OrderLeadsWithBest | internal/assignment/assignment.go:111-122 | Order is a sorted rearrangement whose head is what Best returns |
| Assignment.OrderIgnoresInputOrder | internal/assignment/assignment.go:111-122 | and does not depend on input order for distinct units |
| Assignment.BestIsNotBeaten | internal/assignment/assignment.go:56-99 | the best is never beaten: a candidate that wastes no more on any account, idle nights, amperes, beds, accessibility, plumbing, view and listing order, wastes exactly as much on all |
| Assignment.AttributesAreWorthBeds | internal/assignment/assignment.go:69-79 | access nobody needs gives way to fewer than five spare beds and to no more, plumbing to fewer than three, a view to fewer than two |
| Assignment.MeasuresAreWorthBeds | internal/assignment/assignment.go:56-79 | an ampere counts as a bed where power was asked for, an idle night as ten up to a fortnight a side, ten places in the listing as one |
| Assignment.GapBeforeIsIdleNights | internal/assignment/store.go:82-89 | the capped gap before a stay is the capped run of idle nights ending at arrival |
| Assignment.GapAfterIsIdleNights | internal/assignment/store.go:90-97 | the same after departure |
| Assignment.ChosenLeavesFewestIdleNights | internal/assignment/assignment.go:30-99 | the unit chosen leaves no more idle nights beside the stay than any other that could host it, unless the other's surplus and listing order outweigh them by ten points to the night |
| Assignment.CandidatesOn | internal/assignment/store.go:61-141 | the loop over the query's rows and the sort compute the candidate list |
| Assignment.CandidatesAreHosting | internal/assignment/store.go:98-112 | the list holds each unit that can host the stay, once |
| Assignment.ListedExactlyWhen | internal/assignment/store.go:98-112 | a unit is listed exactly when it is active, of the category, sleeps the guests, takes pets if there are any, has the amperes asked for, is accessible if asked, is open on every night, and nobody has it on any of them |
| Assignment.ListedAsItIs | internal/assignment/store.go:74-97 | each is listed with its own figures, a missing amperage as none, and its idle nights beside the stay |
| Assignment.ListedForTheGuest | internal/assignment/store.go:135-141 | the list is led by the best for what the guest asked, plumbing asked by nobody |
| Inventory.FreeExactlyWhen | migrations/004_occupancy.sql:72-80 | a unit is free for a stay exactly when no row held, confirmed, checked in or checked out has it on a night of the stay |
| Assignment.CandidatesIgnoreRowOrder | internal/assignment/store.go:135-141 | and is the same in whatever order the table is read |
| Availability.CountMatchesCandidates | internal/availability/store.go:37-59 | the free count never exceeds the candidates, and equals them exactly when no negative amperage meets a unit that states none |
| Availability.NegativePowerDisagrees | internal/availability/store.go:56-56 | a concrete search where they differ |
| Availability.HoldTakesTheBest | internal/booking/service_hold.go:66-113 | an undisturbed hold succeeds exactly when some unit can host once stale holds are gone, and takes the least wasteful |
| Availability.PositiveCountMeansHold | internal/availability/store.go:21-29 | a positive count means an undisturbed hold succeeds, and only then when no hold is stale |
| Dates.OverlapIsSharedNight | migrations/004_occupancy.sql:34-40 | two stays overlap exactly when some night is in both, so same-day turnover is free |
| Dates.MaskHasItsWeekdays | internal/pricing/service_compile.go:52-53 | testing a weekday bitmap finds exactly the weekdays its low seven bits were made of |
| Dates.MaskSplits | migrations/005_pricing.sql:117-117 | and every mask is such bits and whatever stands above them |
| Dates.MaskNames | internal/pricing/service_compile.go:52-53 | so a day is in a mask exactly when the mask's choice of weekdays names its weekday |
| Ages.YearHoldsDay | internal/pricing/engine.go:522-533 | the year found for a day is the one it falls in, and its day of the year is between 1 and 366 |
| Ages.AgesRise | internal/pricing/engine.go:522-533 | a child never grows younger, and is nought on the day it is born |
| Ages.AgeIsBirthdays | internal/pricing/engine.go:522-533 | a child is so many years old exactly from the same day of the year, so many years on |
| Ages.YearsAreGregorian | internal/pricing/engine.go:522-533 | years have 366 days in every fourth year but three centuries of four |
| Pricing.StayDays | internal/pricing/engine.go:200-211 | every night of the stay in order, or the first night without a rate |
| Pricing.ApplyVAT | internal/pricing/engine.go:430-446 | each line split at its code's rate, or the first unknown code |
| PricingEngine.PriceStay | internal/pricing/engine.go:18-198 | the loops compute the specified quote or refusal |
| PricingEngine.ClassifyParty | internal/pricing/engine.go:268-292 | the loop over children is the specified classification |
| PricingEngine.PriceNights | internal/pricing/engine.go:64-94 | one line per night, numbered, and their sum |
| PricingEngine.ApplyAdjusters | internal/pricing/engine.go:294-355 | the adjuster loop is the specified stages, skipping what adds nothing |
| PricingEngine.ComposeStay | internal/pricing/engine.go:62-186 | every line and trace step, in order |
| PricingEngine.Discount | internal/pricing/engine.go:136-186 | length of stay, campaign and the cap at zero, on what the lines sum to |
| PricingEngine.SplitVAT | internal/pricing/engine.go:430-446 | the in-place loop is the specified split |
| PricingEngine.SumTotals | internal/pricing/engine.go:466-475 | the loop is the specified totals |
| PricingBalance.EveryQuoteBalances | internal/pricing/engine.go:85-198 | lines, trace and totals agree on the gross, net plus VAT is gross, the per-rate map sums to the VAT, lines are numbered from one, and the total is not negative |
| PricingBalance.TotalIsPipeline | internal/pricing/engine.go:11-17 | the total is the stages applied to the sum of the nights |
| PricingLedger.QuoteIsALedger | internal/pricing/engine.go:18-198 | every quote is a ledger: a line for each night at its price, then a line for each rule that moved the price, in order, each by what that rule demands to the rounding, the trace the same, the total the last subtotal, and each line taxed at the rate of the plan's code |
| PricingLedger.AdjusterFollows | internal/pricing/engine.go:294-383 | in its windows an adjuster takes the subtotal to what it asks for or to the bound it would pass; out of them it does nothing |
| PricingLedger.EachAdjusterHasItsLine | internal/pricing/engine.go:341-353 | each adjuster that moves the price is in its windows and has a line of that amount |
| PricingLedger.LoneAdjusterActs | internal/pricing/engine.go:294-355 | one adjuster in its windows on a plain plan makes the total what it asks for, with a line for the difference |
| PricingLedger.RefusedExactlyWhen | internal/pricing/engine.go:32-60 | a stay with rates is refused for a reason exactly when that rule is broken and none tried before it, and priced exactly when none is and the VAT code is known |
| PricingLedger.UnratedExactlyWhen | internal/pricing/engine.go:18-31 | a stay of no nights is too short, and one missing a rate is refused at the first night without |
| PricingBalance.NetFromGrossBounds | internal/pricing/engine.go:451-457 | twice the error of a line's split is at most 10000 plus the rate |
| PricingBalance.NetFromGrossShape | internal/pricing/engine.go:451-457 | net keeps the sign of gross, never exceeds it in size, and negates with it |
| PricingBalance.EveryQuoteVATIsBounded | internal/pricing/engine.go:427-475 | every quote's lines meet that bound and its totals meet it times the number of lines |
| PricingMonotone.PriceIsMonotone | internal/pricing/engine.go:18-198 | raising rates of the stay or adding people, pets or vehicles never lowers the total |
| PricingAdjusters.ClampIsNearestInBounds | internal/pricing/engine.go:369-383 | clamping is the nearest amount within nights times floor and ceiling |
| PricingAdjusters.AdjustersRespectBounds | internal/pricing/engine.go:294-355 | once an adjuster is in its windows the subtotal is within the bounds; when none is it is untouched |
| PricingAdjusters.PriceIgnoresAdjusterOrder | internal/pricing/engine.go:297-303 | the price does not depend on the listing order of adjusters with distinct priority and name |
| PricingRules.NightAddsUp | internal/pricing/engine.go:66-83 | what each further adult, child, pet and vehicle adds to a night |
| PricingRules.EveryoneIsCounted | internal/pricing/engine.go:268-292 | each child is charged by a band that holds its age or counted as an adult, and nobody is lost |
| PricingRules.PartyIgnoresBandOrder | internal/pricing/engine.go:271-275 | for bands that share no age the sort, unstable or not, does not matter |
| PricingRules.LongestStayRuleApplies | internal/pricing/engine.go:385-401 | the discount is that of the longest threshold reached, the first rule listed with it, and none otherwise |
| PricingRules.StagesAddWhatTheySay | internal/pricing/engine.go:413-425 | percentages are taken of the running subtotal and rounded once; amounts are taken as they stand |
| PricingRules.OnlyAdjustersInWindowCount | internal/pricing/engine.go:294-367 | a quote depends only on adjusters that have a condition and whose every condition holds its figure, ends included: striking all others changes no line, step or total |
| PricingRules.AdjustersRunInOrder | internal/pricing/engine.go:297-303 | adjusters run by priority and then name |
| PricingRules.SellableExactlyWhen | internal/pricing/engine.go:213-263 | the stay rules as one condition, for any weekday mask, its low seven bits read as a set of weekdays |
| PricingMachine.NothingOverflows | internal/httpx/validate.go:8-58 | for every party and stay the validators admit, and rates and derivations within stated bounds, the 64-bit nights and derived price are the exact ones |
| PricingMachine.PartyAcceptedExactlyWhen | internal/httpx/validate.go:41-56 | a party is accepted exactly up to sixty guests, one an adult, twenty pets and twenty vehicles, and refused each for its reason |
| PricingMachine.HugeRatesWrapUnseen | internal/pricing/engine.go:69-73 | a concrete rate that wraps without an error |
| PricingMachine.NetIsExact | internal/pricing/engine.go:451-464 | in 64 bits the net of a gross within the bound is the exact one, at every rate |
| PricingMachine.HugeGrossWraps | internal/pricing/engine.go:451-464 | a concrete gross whose net comes out negative |
| PricingLimits.PriceIsExact | internal/pricing/engine.go:18-198 | within stated bounds on each figure, and while the exact price stays within its own on the way, the engine in 64 bits neither panics nor wraps and returns the exact quote, line by line, or the exact refusal |
| PricingLimits.FloorAndCeilingSuffice | internal/pricing/engine.go:369-383 | a plan with a floor and a ceiling keeps every price on the way within those bounds, whatever its adjusters ask |
| PricingLimits.BoundedPlanIsExact | internal/pricing/engine.go:18-198 | so on such a plan bounds on the figures alone make the machine's quote the exact one |
| Money.DivRoundIsRounded | internal/money/amount.go:229-236 | nearest, halves away from zero, for any sign of the divisor |
| Money.RoundedIsUnique | internal/money/amount.go:229-236 | there is only one such number |
| Money.DivRoundIsOdd | internal/money/amount.go:229-236 | rounding is odd-symmetric |
| Money.MulBPMonotone | internal/money/amount.go:96-106 | a percentage of more is not less |
| Money.MulBPMachineExact | internal/money/amount.go:98-134 | in 64 bits a product in range is divided exactly when it is half a divisor or more from the limits; past them it saturates on the side of its true sign, but for the minimum times minus one |
| Money.DivRoundMachineExact | internal/money/amount.go:229-236 | in 64 bits division by any nonzero divisor is exact for numerators half a divisor away from the limits |
| Int64.MulIsExactOrRefused | internal/money/amount.go:118-127 | mul is the true product or an overflow error for every pair but the minimum times minus one |
| Int64.AddIsExactOrRefused | internal/money/amount.go:58-68 | Add is the true sum or an overflow error for every pair but the minimum with itself |
| SplitMachine.SplitProRata | internal/money/amount.go:140-200 | the array loops, wrapping as 64 bits do, compute a stated answer on every input, and inside the range where nothing wraps it is the largest-remainder split; no weights, a negative weight and a zero total are errors |
| SplitMachine.InRangeIsSplit | internal/money/amount.go:172-191 | the wrapping computation meets the exact specification inside the range |
| SplitMachine.PartsAddUpExactlyWhen | internal/money/amount.go:136-139 | on every input with a nonzero total the parts add up to the amount, in the register, exactly when the leftover is not negative |
| SplitMachine.WrappedProductFails | internal/money/amount.go:172-191 | a product that wraps, other than the first weight's, makes the answer not the split promised |
| SplitMachine.SplitsExactlyInRange | internal/money/amount.go:136-200 | for weights whose first is not the largest alone, the answer is the split promised exactly when no product wraps |
| SplitMachine.OnlyOneRepeats | internal/money/amount.go:180-191 | of any two indices one is handed at most one unit, whatever the remainders |
| SplitMachine.OutOfRangeFails | internal/money/amount.go:172-191 | a concrete amount and weights whose parts have the wrong sign |
| Split.PartsAreExact | internal/money/amount.go:136-139 | parts sum to the amount and each is the floor or ceiling of its share |
| Split.ToppedHasRemainder | internal/money/amount.go:180-191 | only parts with a remainder are topped up |
| Split.PartsFollowWeights | internal/money/amount.go:172-191 | zero weights get nothing and a smaller weight never more than a larger |
| Split.SplitIsUnique | internal/money/amount.go:136-139 | the specification leaves no choice |
| Split.RefundMirrorsCharge | internal/money/amount.go:156-167 | splitting the negated amount negates the parts |
| Sorting.SortIgnoresInputOrder | internal/assignment/assignment.go:111-122 | a sort without ties does not depend on input order |
| Calendar.RateCalendar.Upsert | internal/pricing/service_compile.go:28-76 | nights with a winner get its row; nothing else moves; the count is of those nights |
| Calendar.RateCalendar.Prune | internal/pricing/service_compile.go:79-93 | uncovered nights of the window lose their row; nothing else moves |
| Calendar.RateCalendar.Compile | internal/pricing/service_compile.go:21-100 | each night of the window is left with the winner the insert saw, or its old row if it saw none, unless the delete saw it uncovered; nothing else moves; the count is of winners |
| Calendar.RateCalendar.CompileAll | internal/pricing/service_compile.go:104-135 | every active plan is so compiled on the seasons as they stand by then, no other row moves, and the total is of all of them |
| Calendar.CompilesExactlyWhen | internal/pricing/service_compile.go:28-93 | the window is the calendar of the seasons at the end exactly when each night they cover had the same winner at the insert, or no cover and that very row; with no edit under way always |
| Calendar.LateSeasonIsMissed | internal/pricing/service_compile.go:28-93 | a night first covered between the two statements is left without a row if it had none |
| Calendar.QuietRunCompilesAll | internal/pricing/service_compile.go:104-135 | with no edit under way every active plan's window is exactly the winners' rows |
| Calendar.WinnerIffInForce | internal/pricing/service_compile.go:46-56 | a night has a winner exactly when some season of the plan runs over it, both ends included, and names its weekday |
| Calendar.WinnerIsTopPriority | migrations/008_pricing_integrity.sql:36-46 | under the overlap constraint the winner is the one season of top priority in force that night |
| Calendar.WinnerBeatsTheRest | internal/pricing/service_compile.go:54-55 | without it, a later start decides and then the lower id |
| Calendar.CompiledNight | internal/pricing/service_compile.go:11-20 | with no edit under way a night compiled is sellable exactly when a season of the plan has it between its first and last day and names its weekday, on the terms of the top one |
| Calendar.CompileIsIdempotent | internal/pricing/service_compile.go:57-93 | recompiling changes nothing |
| Calendar.WindowsCompose | internal/pricing/service_compile.go:45-93 | adjacent windows in either order make the whole |
| Calendar.PriceReadsOnlyTheStay | internal/pricing/engine.go:200-211 | a price reads no night outside the stay |
| Calendar.LoadedNight | internal/pricing/store.go:80-105 | a night is loaded as its row has it, and no longest stay is no limit |
| Calendar.CalendarPricesTheSeasons | internal/pricing/service_compile.go:11-20 | pricing from the compiled calendar is pricing from the winning seasons |
| Outbox.PassKeeps | internal/outbox/dispatcher.go:61-138 | every pass keeps attempts within eight, one message per effect, one call per logged message, and delivered exactly when taken |
| Outbox.PassCountsOnce | internal/outbox/dispatcher.go:88-138 | a committed pass counts one attempt on its message and touches no other; one that does not commit changes nothing |
| Outbox.PassUsesAnAttempt | internal/outbox/dispatcher.go:61-138 | each committed pass lowers the attempts remaining |
| Outbox.AttemptsCountPasses | internal/outbox/dispatcher.go:66-79 | over any run the counter counts committed passes, and a delivered message is never claimed again |
| Outbox.PassesAreBounded | internal/outbox/outbox.go:26-29 | however dispatchers interleave, committed passes never exceed the attempts left plus eight for each message owed since |
| Outbox.SentOnceIfDelivered | internal/notify/store.go:45-72 | over every run from an empty queue at most one committed pass calls the transport for a message, and a message is delivered exactly when the transport took it |
| Outbox.RetryWaits | internal/outbox/outbox.go:85-91 | a failed message is due again exactly from as many minutes on as it has been tried, if fewer than eight times; a delivered one never |
| Outbox.StuckForGood | internal/notify/store.go:52-72 | a message logged by a refused send is never delivered, whatever runs |
| Outbox.ArrivesUnlessStuck | internal/outbox/dispatcher.go:61-138 | a message can still arrive exactly when it has, or has attempts left and is not stuck |
| Outbox.StallsExactlyWhenStuck | internal/outbox/dispatcher.go:92-105 | a due message whose mail renders is claimed in vain, whatever the transport would say, exactly when it is stuck |
| Outbox.RetriesWithoutBound | internal/outbox/dispatcher.go:66-79 | any number of passes on it leave its attempts and its time where they were |
| Outbox.NothingLaterGoesOut | internal/outbox/dispatcher.go:66-79 | while it is due and free, no run of passes touches a message due later |
| Outbox.DrainFailsAtTheStuck | internal/outbox/dispatcher.go:40-53 | a drain that finds it longest due fails at once, delivers nothing and leaves the queue as it was |
| Outbox.RefusedSendBlocksTheQueue | internal/booking/service_notify.go:54-71 | a concrete queue in which one refused send keeps a later mail from ever being reached |
| Outbox.AddKeeps | internal/outbox/outbox.go:51-70 | owing an effect twice leaves one message |
| Outbox.AddAsks | internal/outbox/outbox.go:51-70 | asking for an effect leaves every message as it was and the effect owed by one, a new one if nothing owed it: never tried, undelivered, due at once |
| Outbox.AskedIsOwed | internal/outbox/outbox.go:51-70 | over every run an effect asked for is owed by exactly one message of that kind and key |
| Outbox.Dispatcher.Enqueue | internal/outbox/outbox.go:51-70 | refuses empty kinds and keys; otherwise the effect is owed by exactly one message, a new one due at once if nothing owed it, and every other message is as it was |
| Outbox.Dispatcher.One | internal/outbox/dispatcher.go:61-105 | one pass on the longest-due message nobody else is working on, failing exactly when it does not commit, or nothing if none is due |
| Outbox.Dispatcher.Drain | internal/outbox/dispatcher.go:40-53 | at most twenty passes; its count is of committed passes; it stops early only at an error or when nothing is due |
| Format.Format | internal/booking/service_notify.go:143-163 | the printing loop is the specified text |
| Format.Group | internal/booking/service_notify.go:150-156 | the digit loop groups threes from the right |
| Format.ReadsBack | internal/booking/service_notify.go:140-163 | the text reads back as the amount exactly when it is above the minimum |
| Format.PrintsApart | internal/booking/service_notify.go:143-163 | distinct amounts or currencies print differently |
| Format.GroupsOfThree | internal/booking/service_notify.go:150-156 | every fourth character from the right is a space and no other, and the first group has one to three digits |

## Left out

- BookingStore.Store.Confirm: a clash on the key or the reference is reported no later than the commit, where the database makes the later transaction wait at its insert; the outcomes are the same except that a clash can be reported after the candidates were walked.
- PricingLimits.PriceIsExact: the bounds on figures are chosen here; the schema has none on rates, factors and amounts that would make 64 bits suffice.
- Availability.FreeCount: one category's row of the search; the list over categories and its order are not modelled.
- Calendar.RateCalendar.Compile: the compile time stored on each row is not modelled, nor a plan created, closed or given another currency while recompilation runs.
- Assignment.Order: string order of unit ids is modelled as order of numbers.
- Guests, consents, the lead guest and children as people, requirements, access tokens, cancellation terms and notes written by a confirmation: rows that decide nothing here.
- The party and channel columns of an allocation, and the actor and detail of an event other than units.
- That a converted hold is of the booking's category or party: the update does not check it, and the model does not claim it.
- That a move respects seasons or requirements: the code leaves that to staff.
- Rows without a unit: the schema allows them and nothing writes them.
- Sub, Neg and Sum of amounts, and currencies meeting: one addition at a time, or a tag compared.
- Line descriptions and the wording of trace details.
- Calendar text and time zones. An age is counted as the code counts it, by year and day of the year, which can be a day out at a birthday when only one of the two years is a leap year.
- The staff view of a booking's history, which lists events by when their transactions began; the log here is in the order they committed.
- BookingStore.Store.ByIdempotencyKey: the guest's name and address, which a replay also shows, are not modelled.
- SplitMachine.SplitsExactlyInRange: leaves open a first weight larger than all others whose product alone wraps, where handing out the rest one unit at a time can still come out right, and weights summing to a third of 2^64 or more.
- Postgres itself: constraints, savepoints, row locks and atomic commit are the semantics of a step; row-level security and several operators are not modelled.
- Plan parents when a snapshot is loaded, campaigns' validity dates, seeding and season editing.
- HTTP, sessions, caching, mail transport and templates, telemetry, listings and reports.
