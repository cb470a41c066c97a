/** Calendar dates as day numbers, and the weekday bitmaps staff edit. */
module Dates {

  /** Day 0 is a Monday. */
  function Weekday(day: int): (w: nat)
    ensures w < 7
  {
    day % 7
  }

  function Bit(weekday: nat): (b: nat)
    ensures b > 0
  {
    if weekday == 0 then 1 else 2 * Bit(weekday - 1)
  }

  /** `mask & (1 << weekday) <> 0`, Monday being the lowest bit. Division rounds
      down, which is what two's complement does for a negative mask. */
  predicate MaskHas(mask: int, day: int) {
    (mask / Bit(Weekday(day))) % 2 == 1
  }

  function One(on: bool): (b: nat)
    ensures b <= 1
  {
    if on then 1 else 0
  }

  /** The bitmap that names these weekdays, Monday first. */
  function MaskOf(on: seq<bool>): nat
    requires |on| == 7
  {
    One(on[0]) + 2 * One(on[1]) + 4 * One(on[2]) + 8 * One(on[3])
    + 16 * One(on[4]) + 32 * One(on[5]) + 64 * One(on[6])
  }

  lemma Bits()
    ensures Bit(0) == 1 && Bit(1) == 2 && Bit(2) == 4 && Bit(3) == 8
    ensures Bit(4) == 16 && Bit(5) == 32 && Bit(6) == 64
  {
    assert Bit(3) == 2 * Bit(2);
    assert Bit(5) == 2 * Bit(4);
  }

  lemma QuotientIs(low: int, q: int, p: int)
    requires 0 <= low < p
    ensures (low + q * p) / p == q
  {
    assert (low + q * p) == ((low + q * p) / p) * p + (low + q * p) % p;
    var gap := (low + q * p) / p - q;
    assert gap * p + (low + q * p) % p == low;
    assert gap > 0 ==> gap * p >= p;
    assert gap < 0 ==> gap * p <= -p;
  }

  /** The bit above `low` and below `high`. */
  lemma BitBetween(low: int, bit: int, high: int, p: int)
    requires 0 <= low < p && 0 <= bit <= 1
    ensures ((low + (bit + 2 * high) * p) / p) % 2 == bit
  {
    QuotientIs(low, bit + 2 * high, p);
  }

  lemma MaskBit(mask: int, low: int, on: bool, high: int, w: nat)
    requires 0 <= low < Bit(w) && mask == low + (One(on) + 2 * high) * Bit(w)
    ensures (mask / Bit(w)) % 2 == 1 <==> on
  {
    BitBetween(low, One(on), high, Bit(w));
  }

  /** Testing a bitmap finds exactly the weekdays it was made of, whatever stands in
      the bits above them. */
  lemma MaskHasItsWeekdays(on: seq<bool>, high: int, day: int)
    requires |on| == 7
    ensures MaskHas(MaskOf(on) + 128 * high, day) <==> on[Weekday(day)]
  {
    Bits();
    var mask, w := MaskOf(on) + 128 * high, Weekday(day);
    var a, b, c, d := One(on[0]), One(on[1]), One(on[2]), One(on[3]);
    var e, f, g := One(on[4]), One(on[5]), One(on[6]);
    if w == 0 {
      MaskBit(mask, 0, on[0], b + 2 * c + 4 * d + 8 * e + 16 * f + 32 * g + 64 * high, 0);
    } else if w == 1 {
      MaskBit(mask, a, on[1], c + 2 * d + 4 * e + 8 * f + 16 * g + 32 * high, 1);
    } else if w == 2 {
      MaskBit(mask, a + 2 * b, on[2], d + 2 * e + 4 * f + 8 * g + 16 * high, 2);
    } else if w == 3 {
      MaskBit(mask, a + 2 * b + 4 * c, on[3], e + 2 * f + 4 * g + 8 * high, 3);
    } else if w == 4 {
      MaskBit(mask, a + 2 * b + 4 * c + 8 * d, on[4], f + 2 * g + 4 * high, 4);
    } else if w == 5 {
      MaskBit(mask, a + 2 * b + 4 * c + 8 * d + 16 * e, on[5], g + 2 * high, 5);
    } else {
      MaskBit(mask, a + 2 * b + 4 * c + 8 * d + 16 * e + 32 * f, on[6], high, 6);
    }
  }

  lemma Halve(x: int) returns (odd: bool, half: int)
    ensures x == One(odd) + 2 * half
  {
    odd, half := x % 2 == 1, x / 2;
  }

  /** And every mask is one of those. */
  lemma MaskSplits(mask: int) returns (on: seq<bool>, high: int)
    ensures |on| == 7 && mask == MaskOf(on) + 128 * high
  {
    var mon, a := Halve(mask);
    var tue, b := Halve(a);
    var wed, c := Halve(b);
    var thu, d := Halve(c);
    var fri, e := Halve(d);
    var sat, f := Halve(e);
    var sun, g := Halve(f);
    on, high := [mon, tue, wed, thu, fri, sat, sun], g;
  }

  /** The mask is a choice of weekdays, and this is one of them. */
  ghost predicate Names(mask: int, weekday: nat) {
    weekday < 7 && exists on: seq<bool>, high: int :: Chooses(mask, on, high) && on[weekday]
  }

  ghost predicate Chooses(mask: int, on: seq<bool>, high: int) {
    |on| == 7 && mask == MaskOf(on) + 128 * high
  }

  lemma MaskNames(mask: int, day: int)
    ensures MaskHas(mask, day) <==> Names(mask, Weekday(day))
  {
    var on, high := MaskSplits(mask);
    assert Chooses(mask, on, high);
    MaskHasItsWeekdays(on, high, day);
    if Names(mask, Weekday(day)) {
      var picked, above :| Chooses(mask, picked, above) && picked[Weekday(day)];
      MaskHasItsWeekdays(picked, above, day);
    }
  }

  /** A half-open stay: the departure day is not a night of it. */
  datatype Stay = Stay(arrival: int, departure: int) {
    predicate NonEmpty() {
      arrival < departure
    }

    predicate Covers(night: int) {
      arrival <= night < departure
    }
  }

  /** daterange's && on non-empty stays. */
  predicate Overlap(a: Stay, b: Stay) {
    a.arrival < b.departure && b.arrival < a.departure
  }

  /** Two non-empty stays overlap exactly when some night belongs to both, so
      same-day turnover is never a clash. */
  lemma OverlapIsSharedNight(a: Stay, b: Stay)
    requires a.NonEmpty() && b.NonEmpty()
    ensures Overlap(a, b) <==> exists n :: a.Covers(n) && b.Covers(n)
  {
    var n := if a.arrival < b.arrival then b.arrival else a.arrival;
    if Overlap(a, b) {
      assert a.Covers(n) && b.Covers(n);
    }
  }
}
