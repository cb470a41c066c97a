/** Transactions among other transactions: what the store's methods do, read as
    steps of one run. */
module Interleaving {
  import opened Dates
  import opened Options
  import opened Inventory
  import opened Occupancy
  import opened OccupancyInvariant
  import opened OccupancyLaws
  import opened Schedules
  import A = Assignment

  /** One database: the transactions other clients commit, one after another, and
      the tables before each. */
  ghost predicate History(states: nat -> World, others: nat -> Action) {
    && Inv(states(0))
    && forall t: nat :: Possible(states(t), others(t)) && states(t + 1) == Step(states(t), others(t)).0
  }

  /** The transaction's statements look at that database at moments that only move
      forward. */
  ghost predicate LooksAt(seen: Schedule, states: nat -> World, at: nat -> nat) {
    && (forall j: nat :: seen(j) == states(at(j)))
    && (forall i: nat, j: nat | i <= j :: at(i) <= at(j))
  }

  function First(others: nat -> Action, n: nat): (actions: seq<Action>)
    ensures |actions| == n && forall k | 0 <= k < n :: actions[k] == others(k)
  {
    seq(n, k requires 0 <= k => others(k))
  }

  lemma {:induction false} HistoryIsSound(states: nat -> World, others: nat -> Action, n: nat)
    requires History(states, others)
    ensures Inv(states(n))
  {
    if n > 0 {
      HistoryIsSound(states, others, n - 1);
      StepKeeps(states(n - 1), others(n - 1));
    }
  }

  lemma {:induction false} HistoryIsRun(states: nat -> World, others: nat -> Action, n: nat)
    requires History(states, others)
    ensures Run(states(0), First(others, n)) == states(n)
  {
    if n > 0 {
      HistoryIsRun(states, others, n - 1);
      assert First(others, n)[..n - 1] == First(others, n - 1);
    }
  }

  lemma HistoryIsPossible(states: nat -> World, others: nat -> Action, n: nat)
    requires History(states, others)
    ensures PossibleRun(states(0), First(others, n))
  {
    forall k | 0 <= k < n ensures Possible(Run(states(0), First(others, n)[..k]), First(others, n)[k]) {
      HistoryIsRun(states, others, k);
      assert First(others, n)[..k] == First(others, k);
    }
  }

  lemma {:induction false} HistoryRemembers(states: nat -> World, others: nat -> Action, i: nat, j: nat)
    requires History(states, others) && i <= j
    ensures Remembers(states(i), states(j))
    decreases j
  {
    if i < j {
      HistoryRemembers(states, others, i, j - 1);
      HistoryIsSound(states, others, j - 1);
      IndexesAgree(states(j - 1));
      StepRemembers(states(j - 1), others(j - 1));
      RemembersChain(states(i), states(j - 1), states(j));
    }
  }

  /** A quote a transaction has read stays for as long as a month has not passed since
      its end. */
  lemma QuotesDoStay(seen: Schedule, states: nat -> World, others: nat -> Action, at: nat -> nat, i: nat, j: nat, q: Id)
    requires History(states, others) && LooksAt(seen, states, at) && i <= j
    requires q in seen(i).quotes && seen(j).clock <= seen(i).quotes[q].expires + QUOTE_RETENTION
    ensures SameQuote(seen(i), seen(j), q)
  {
    HistoryRemembers(states, others, at(i), at(j));
  }

  /** One more step after the others' is one longer run. */
  lemma StepAfterOthers(states: nat -> World, others: nat -> Action, n: nat, a: Action)
    requires History(states, others) && Possible(states(n), a)
    ensures var run := First(others, n) + [a];
            PossibleRun(states(0), run) && Run(states(0), run) == Step(states(n), a).0
  {
    var before := First(others, n);
    var run := before + [a];
    HistoryIsRun(states, others, n);
    HistoryIsPossible(states, others, n);
    assert run[..n] == before;
    forall k | 0 <= k < |run| ensures Possible(Run(states(0), run[..k]), run[k]) {
      if k < n {
        assert run[..k] == before[..k];
      }
    }
  }

  lemma SeenOfCategory(w: World, read: World, swept: set<Id>, asOf: int, q: A.Query, listing: seq<Id>, tried: nat)
    requires A.Lists(listing, read.units) && read.units == w.units
    requires tried <= |Seen(read, swept, asOf, q, listing)|
    ensures OfCategory(w, Seen(read, swept, asOf, q, listing)[tried..], q.category)
  {
    var rows := Expire(read.allocations, swept, asOf);
    A.CandidatesAreHosting(read.units, rows, q, listing);
    var ids := Seen(read, swept, asOf, q, listing);
    forall k | 0 <= k < |ids[tried..]| ensures ids[tried..][k] in A.Hosting(read.units, rows, q) {
      assert ids[tried + k] in ids;
    }
  }

  lemma HoldIsPossible(seen: Schedule, states: nat -> World, others: nat -> Action, at: nat -> nat,
                       req: HoldRequest, listing: seq<Id>, looks: nat, call: HoldCall)
    requires History(states, others) && LooksAt(seen, states, at)
    requires A.Lists(listing, seen(0).units) && req.asOf <= seen(0).clock
    requires HoldMatches(call, req, StaleIn(seen(0).allocations, req.category, req.asOf))
    requires HoldTrail(seen, looks, req, listing, call)
    ensures Possible(seen(looks), TakeHold(call))
  {
    HistoryRemembers(states, others, at(0), at(1));
    HistoryRemembers(states, others, at(0), at(looks));
    SeenOfCategory(seen(looks), seen(1), call.swept, req.asOf, req.Query(), listing,
                   |HoldIds(seen, req, listing)| - |call.candidates|);
  }

  /** A hold taken statement by statement, among any commits of others, leaves the
      tables where one run of atomic steps leaves them. */
  lemma HoldIsSerial(seen: Schedule, states: nat -> World, others: nat -> Action, at: nat -> nat,
                     req: HoldRequest, listing: seq<Id>, looks: nat, call: HoldCall)
    requires History(states, others) && LooksAt(seen, states, at)
    requires A.Lists(listing, seen(0).units) && req.asOf <= seen(0).clock
    requires HoldMatches(call, req, StaleIn(seen(0).allocations, req.category, req.asOf))
    requires HoldTrail(seen, looks, req, listing, call)
    ensures var run := First(others, at(looks)) + [TakeHold(call)];
            && PossibleRun(states(0), run) && Run(states(0), run) == DoHold(seen(looks), call).0
            && Inv(DoHold(seen(looks), call).0)
  {
    HoldIsPossible(seen, states, others, at, req, listing, looks, call);
    HistoryIsSound(states, others, at(looks));
    StepKeeps(seen(looks), TakeHold(call));
    StepAfterOthers(states, others, at(looks), TakeHold(call));
  }

  lemma ConfirmIsPossible(seen: Schedule, states: nat -> World, others: nat -> Action, at: nat -> nat,
                          req: ConfirmRequest, listing: seq<Id>, looks: nat, atHold: nat, call: ConfirmCall)
    requires History(states, others) && LooksAt(seen, states, at)
    requires A.Lists(listing, seen(0).units) && req.asOf <= seen(0).clock
    requires ConfirmMatches(call, req) && Trail(seen, atHold, looks, req, listing, call)
    ensures Possible(seen(looks), Confirm(call))
  {
    HistoryRemembers(states, others, at(0), at(looks));
    if call.candidates != [] {
      HistoryRemembers(states, others, at(0), at(atHold + 1));
      var ids := ReadmitIds(seen, atHold + 1, call.swept, req, listing);
      SeenOfCategory(seen(looks), seen(atHold + 1), call.swept, req.asOf, Readmission(req), listing,
                     |ids| - |call.candidates|);
    }
  }

  lemma ConfirmIsSerial(seen: Schedule, states: nat -> World, others: nat -> Action, at: nat -> nat,
                        req: ConfirmRequest, listing: seq<Id>, looks: nat, atHold: nat, call: ConfirmCall)
    requires History(states, others) && LooksAt(seen, states, at)
    requires A.Lists(listing, seen(0).units) && req.asOf <= seen(0).clock
    requires ConfirmMatches(call, req) && Trail(seen, atHold, looks, req, listing, call)
    ensures var run := First(others, at(looks)) + [Confirm(call)];
            && PossibleRun(states(0), run) && Run(states(0), run) == DoConfirm(seen(looks), call).0
            && Inv(DoConfirm(seen(looks), call).0)
  {
    ConfirmIsPossible(seen, states, others, at, req, listing, looks, atHold, call);
    HistoryIsSound(states, others, at(looks));
    StepKeeps(seen(looks), Confirm(call));
    StepAfterOthers(states, others, at(looks), Confirm(call));
  }

  /** A guest confirming with a hold still inside its deadline has a place, whatever
      commits between the statements, so long as nobody else presents the token; so
      unhindered the confirmation succeeds, and by converting that hold. */
  lemma LiveHoldIsNeverLost(seen: Schedule, states: nat -> World, others: nat -> Action, at: nat -> nat,
                            req: ConfirmRequest, listing: seq<Id>, looks: nat, atHold: nat, call: ConfirmCall,
                            token: Id, row: Allocation)
    requires History(states, others) && LooksAt(seen, states, at)
    requires req.holdToken == Some(token) && req.Nights() == row.stay && req.asOf <= seen(0).clock
    requires Holds(states(0).allocations, token, row, seen(atHold).clock)
    requires forall t | 0 <= t < at(atHold) :: Spares(others(t), token)
    ensures Placeable(seen, atHold, req, listing)
    ensures BookedBy(seen, req, listing, looks, atHold, call) ==>
              call.holdToken == Some(token) && looks == atHold && call.candidates == []
  {
    var n := at(atHold);
    HistoryIsRun(states, others, n);
    HistoryIsPossible(states, others, n);
    HistoryRemembers(states, others, at(0), n);
    HoldStays(states(0), First(others, n), token, row);
    ExpireSpares(seen(atHold).allocations, ConfirmSweep(seen, req), req.asOf, token, row, seen(atHold).clock);
    ExpireSpares(seen(atHold).allocations, call.swept, req.asOf, token, row, seen(atHold).clock);
  }
}
