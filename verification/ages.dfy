/** How old a child is on the day of arrival, as the engine counts it: by year and
    day of the year. Day 0 is Monday, 1 January of year 1. */
module Ages {

  const FOUR_HUNDRED_YEARS: int := 146_097
  const HUNDRED_YEARS: int := 36_524
  const FOUR_YEARS: int := 1_461

  /** The first day of a year. */
  function NewYear(year: int): int {
    var past := year - 1;
    365 * past + past / 4 - past / 100 + past / 400
  }

  function AtMost(x: int, most: int): int {
    if x > most then most else x
  }

  /** The year a day falls in, by whole cycles of four hundred, a hundred, four and
      one. */
  function YearOf(day: int): int {
    var inCycle := day % FOUR_HUNDRED_YEARS;
    var century := AtMost(inCycle / HUNDRED_YEARS, 3);
    var inCentury := inCycle - century * HUNDRED_YEARS;
    var leap := inCentury / FOUR_YEARS;
    var inLeap := inCentury - leap * FOUR_YEARS;
    400 * (day / FOUR_HUNDRED_YEARS) + 100 * century + 4 * leap + AtMost(inLeap / 365, 3) + 1
  }

  /** 1 on New Year's Day. */
  function YearDay(day: int): int {
    day - NewYear(YearOf(day)) + 1
  }

  function AgeAt(birth: int, on: int): int {
    YearOf(on) - YearOf(birth) - if YearDay(on) < YearDay(birth) then 1 else 0
  }

  lemma NewYearOf(cycle: int, century: int, leap: int, year: int)
    requires 0 <= century <= 3 && 0 <= leap <= 24 && 0 <= year <= 3
    ensures NewYear(400 * cycle + 100 * century + 4 * leap + year + 1)
         == FOUR_HUNDRED_YEARS * cycle + HUNDRED_YEARS * century + FOUR_YEARS * leap + 365 * year
  {
    var past := 400 * cycle + 100 * century + 4 * leap + year;
    assert past / 4 == 100 * cycle + 25 * century + leap;
    assert past / 100 == 4 * cycle + century;
    assert past / 400 == cycle;
  }

  /** The next year begins where the last day of this one ends. */
  lemma NextNewYear(cycle: int, century: int, leap: int, year: int, rest: int)
    requires 0 <= century <= 3 && 0 <= leap <= 24 && 0 <= year <= 3
    requires 0 <= rest < 365 || (rest == 365 && year == 3 && (leap < 24 || century == 3))
    ensures rest < NewYear(400 * cycle + 100 * century + 4 * leap + year + 2)
                   - NewYear(400 * cycle + 100 * century + 4 * leap + year + 1)
  {
    NewYearOf(cycle, century, leap, year);
    if year < 3 {
      NewYearOf(cycle, century, leap, year + 1);
    } else if leap < 24 {
      NewYearOf(cycle, century, leap + 1, 0);
    } else if century < 3 {
      NewYearOf(cycle, century + 1, 0, 0);
    } else {
      NewYearOf(cycle + 1, 0, 0, 0);
    }
  }

  lemma DayParts(day: int) returns (cycle: int, century: int, leap: int, year: int, rest: int)
    ensures 0 <= century <= 3 && 0 <= leap <= 24 && 0 <= year <= 3
    ensures 0 <= rest < 365 || (rest == 365 && year == 3 && (leap < 24 || century == 3))
    ensures day == FOUR_HUNDRED_YEARS * cycle + HUNDRED_YEARS * century + FOUR_YEARS * leap + 365 * year + rest
    ensures YearOf(day) == 400 * cycle + 100 * century + 4 * leap + year + 1
  {
    var inCycle := day % FOUR_HUNDRED_YEARS;
    cycle := day / FOUR_HUNDRED_YEARS;
    century := AtMost(inCycle / HUNDRED_YEARS, 3);
    var inCentury := inCycle - century * HUNDRED_YEARS;
    leap := inCentury / FOUR_YEARS;
    var inLeap := inCentury - leap * FOUR_YEARS;
    year := AtMost(inLeap / 365, 3);
    rest := inLeap - 365 * year;
  }

  /** A day falls in its year. */
  lemma YearHoldsDay(day: int)
    ensures NewYear(YearOf(day)) <= day < NewYear(YearOf(day) + 1)
    ensures 1 <= YearDay(day) <= 366
  {
    var cycle, century, leap, year, rest := DayParts(day);
    NewYearOf(cycle, century, leap, year);
    NextNewYear(cycle, century, leap, year, rest);
  }

  lemma NewYearsInOrder(year: int, later: int)
    requires year <= later
    ensures NewYear(year) <= NewYear(later)
  {
    var p, q := year - 1, later - 1;
    assert p / 4 <= q / 4 && p / 400 <= q / 400;
    assert q / 100 - p / 100 <= q - p;
  }

  /** Years follow days. */
  lemma YearsInOrder(day: int, later: int)
    requires day <= later
    ensures YearOf(day) <= YearOf(later)
    ensures YearOf(day) == YearOf(later) ==> YearDay(day) <= YearDay(later)
  {
    YearHoldsDay(day);
    YearHoldsDay(later);
    if YearOf(later) < YearOf(day) {
      NewYearsInOrder(YearOf(later) + 1, YearOf(day));
    }
  }

  /** Nobody grows younger, and a child born on the day of arrival is nought. */
  lemma AgesRise(birth: int, on: int, later: int)
    requires on <= later
    ensures AgeAt(birth, on) <= AgeAt(birth, later)
    ensures AgeAt(birth, birth) == 0
  {
    YearsInOrder(on, later);
    YearHoldsDay(on);
    YearHoldsDay(later);
  }

  /** Every fourth year is a leap year, but of the centuries only every fourth. */
  lemma YearsAreGregorian(year: int)
    ensures NewYear(1) == 0
    ensures NewYear(year + 1) - NewYear(year)
         == if year % 400 == 0 || (year % 4 == 0 && year % 100 != 0) then 366 else 365
  {
    var past := year - 1;
    Quotients(past, 4);
    Quotients(past, 100);
    Quotients(past, 400);
    assert year % 100 == 0 ==> year % 4 == 0;
    assert year % 400 == 0 ==> year % 100 == 0;
  }

  /** A quotient grows when the divisor divides the next number. */
  lemma Quotients(n: int, d: int)
    requires d > 0
    ensures (n + 1) / d == n / d + if (n + 1) % d == 0 then 1 else 0
  {
    var q, rest := n / d, n % d;
    assert n == q * d + rest;
    if rest == d - 1 {
      assert n + 1 == (q + 1) * d;
      Divides(n + 1, q + 1, 0, d);
    } else {
      Divides(n + 1, q, rest + 1, d);
    }
  }

  lemma Divides(n: int, q: int, rest: int, d: int)
    requires d > 0 && 0 <= rest < d && n == q * d + rest
    ensures n / d == q && n % d == rest
  {
    var gap := n / d - q;
    assert n == (n / d) * d + n % d;
    assert gap * d == (n / d) * d - q * d;
    assert gap > 0 ==> gap * d >= d;
    assert gap < 0 ==> gap * d <= -d;
  }

  /** The day of the year a child was born on, some years later. */
  function Birthday(birth: int, years: int): int {
    NewYear(YearOf(birth) + years) + birth - NewYear(YearOf(birth))
  }

  /** A child is so many years old from that birthday on, and not before: the year counts
      from the day itself. */
  lemma AgeIsBirthdays(birth: int, on: int, years: int)
    ensures AgeAt(birth, on) >= years <==> on >= Birthday(birth, years)
  {
    YearHoldsDay(birth);
    YearHoldsDay(on);
    AgeParts(birth, on, years);
    var year, now := YearOf(birth) + years, YearOf(on);
    YearsApart(year, now);
    YearsAreLong(year);
    AgeByYears(year, YearDay(birth), now, YearDay(on), NewYear(year), NewYear(year + 1),
               NewYear(now), NewYear(now + 1));
  }

  lemma AgeParts(birth: int, on: int, years: int)
    ensures AgeAt(birth, on) >= years <==>
              YearOf(on) - (if YearDay(on) < YearDay(birth) then 1 else 0) >= YearOf(birth) + years
    ensures Birthday(birth, years) == NewYear(YearOf(birth) + years) + YearDay(birth) - 1
    ensures on == NewYear(YearOf(on)) + YearDay(on) - 1
  {
  }

  lemma AgeByYears(year: int, bornDay: int, now: int, nowDay: int, start: int, end: int, nowStart: int, nowEnd: int)
    requires 1 <= bornDay <= 366 && 365 <= end - start && 1 <= nowDay <= nowEnd - nowStart
    requires now < year ==> nowEnd <= start
    requires now > year ==> nowStart >= end
    requires now == year ==> nowStart == start && nowEnd == end
    ensures now - (if nowDay < bornDay then 1 else 0) >= year <==> nowStart + nowDay >= start + bornDay
  {
  }

  /** A later year begins after this one ends, and a year after that a whole year later. */
  lemma YearsApart(year: int, other: int)
    ensures other < year ==> NewYear(other + 1) <= NewYear(year)
    ensures other > year ==> NewYear(other) >= NewYear(year + 1)
  {
    if other < year {
      NewYearsInOrder(other + 1, year);
    } else if other > year {
      NewYearsInOrder(year + 1, other);
    }
  }

  lemma YearsAreLong(year: int)
    ensures 365 <= NewYear(year + 1) - NewYear(year) <= 366
  {
    YearsAreGregorian(year);
  }
}
