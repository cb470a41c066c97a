/** What an operator has to sell, and who occupies it when. */
module Inventory {
  import opened Dates
  import opened Options

  type Id = nat

  datatype Unit = Unit(
    category: Id, active: bool, seasons: seq<Stay>, sortOrder: int, maxOccupancy: int,
    petsAllowed: bool, electricityAmp: Option<int>, accessible: bool, sanitary: bool, hasView: bool)

  datatype AllocationKind = Booking | Hold | Block

  datatype State = Held | Confirmed | CheckedIn | CheckedOut | Cancelled | Expired | NoShow

  /** One row of unit_allocation: bookings, holds and blocks share the shape. */
  datatype Allocation = Allocation(
    category: Id, unit: Id, kind: AllocationKind, state: State, stay: Stay,
    deadline: Option<int>, booking: Option<Id>, pinned: bool)

  type Rows = map<Id, Allocation>

  /** The states the exclusion constraint reads. */
  predicate Live(s: State) {
    s == Held || s == Confirmed || s == CheckedIn || s == CheckedOut
  }

  /** Row id keeps a unit from being used on some night of the stay. */
  predicate Occupies(a: Allocation, unit: Id, stay: Stay) {
    a.unit == unit && Live(a.state) && Overlap(a.stay, stay)
  }

  /** No row stands in the way of an insert: the answer 23P01 gives. */
  predicate Free(rows: Rows, unit: Id, stay: Stay) {
    forall i | i in rows :: !Occupies(rows[i], unit, stay)
  }

  /** Somebody has the unit on the night: held, booked, in house, gone from it or barred;
      not cancelled, lapsed or never come. */
  predicate Taken(rows: Rows, unit: Id, night: int) {
    exists i :: i in rows && rows[i].unit == unit
      && rows[i].state in {Held, Confirmed, CheckedIn, CheckedOut}
      && rows[i].stay.arrival <= night < rows[i].stay.departure
  }

  lemma TakenBy(rows: Rows, unit: Id, night: int) returns (i: Id)
    requires Taken(rows, unit, night)
    ensures i in rows && rows[i].unit == unit && Live(rows[i].state) && rows[i].stay.Covers(night)
  {
    i :| i in rows && rows[i].unit == unit
      && rows[i].state in {Held, Confirmed, CheckedIn, CheckedOut}
      && rows[i].stay.arrival <= night < rows[i].stay.departure;
  }

  ghost predicate NonEmptyStays(rows: Rows) {
    forall i | i in rows :: rows[i].stay.NonEmpty()
  }

  /** A unit is free for a stay exactly when nobody has it on any night of the stay; the
      day of departure is not one. */
  lemma FreeExactlyWhen(rows: Rows, unit: Id, stay: Stay)
    requires NonEmptyStays(rows) && stay.NonEmpty()
    ensures Free(rows, unit, stay) <==> forall n | stay.arrival <= n < stay.departure :: !Taken(rows, unit, n)
  {
    if !Free(rows, unit, stay) {
      var i :| i in rows && Occupies(rows[i], unit, stay);
      OverlapIsSharedNight(rows[i].stay, stay);
      var n :| rows[i].stay.Covers(n) && stay.Covers(n);
      assert Taken(rows, unit, n);
    }
    if n :| stay.arrival <= n < stay.departure && Taken(rows, unit, n) {
      var i :| i in rows && rows[i].unit == unit && rows[i].state in {Held, Confirmed, CheckedIn, CheckedOut}
        && rows[i].stay.arrival <= n < rows[i].stay.departure;
      assert Occupies(rows[i], unit, stay);
    }
  }

  /** unit_allocation_no_overlap, over the whole table. */
  ghost predicate NoOverlap(rows: Rows) {
    forall i, j | i in rows && j in rows && i != j && Live(rows[i].state) ::
      !Occupies(rows[j], rows[i].unit, rows[i].stay)
  }

  // ---- the ways a table may change without two rows clashing --------------------------

  /** Every live row afterwards was live before, on the same unit and nights. */
  ghost predicate OnlyReleases(before: Rows, after: Rows) {
    forall i | i in after && Live(after[i].state) ::
      && i in before && Live(before[i].state)
      && before[i].unit == after[i].unit && before[i].stay == after[i].stay
  }

  lemma ReleasingKeepsNoOverlap(before: Rows, after: Rows)
    requires NoOverlap(before) && OnlyReleases(before, after)
    ensures NoOverlap(after)
  {
    forall i, j | i in after && j in after && i != j && Live(after[i].state)
      ensures !Occupies(after[j], after[i].unit, after[i].stay)
    {
      if Live(after[j].state) {
        assert !Occupies(before[j], before[i].unit, before[i].stay);
      }
    }
  }

  /** Releasing rows frees, and never occupies. */
  lemma ReleasingKeepsFree(before: Rows, after: Rows, unit: Id, stay: Stay)
    requires OnlyReleases(before, after) && Free(before, unit, stay)
    ensures Free(after, unit, stay)
  {
    forall i | i in after ensures !Occupies(after[i], unit, stay) {
      if Live(after[i].state) {
        assert !Occupies(before[i], unit, stay);
      }
    }
  }

  /** Writing a row where nothing else stands: an insert, or a move. */
  lemma PlacingKeepsNoOverlap(rows: Rows, id: Id, a: Allocation)
    requires NoOverlap(rows) && Free(rows - {id}, a.unit, a.stay)
    ensures NoOverlap(rows[id := a])
  {
    var after := rows[id := a];
    forall i, j | i in after && j in after && i != j && Live(after[i].state)
      ensures !Occupies(after[j], after[i].unit, after[i].stay)
    {
      if i == id {
        assert j in rows - {id};
      } else if j == id {
        assert i in rows - {id};
        assert !Occupies(rows[i], a.unit, a.stay);
      }
    }
  }
}
