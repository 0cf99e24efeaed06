/** Day numbers over the proleptic Gregorian calendar (ECMA-262, section 21.4.1): day 0 is
    1 January 1970. */
module Calendar {

  datatype CivilDate = CivilDate(year: int, month: int, day: int)

  predicate Leap(y: int) {
    y % 4 == 0 && (y % 100 != 0 || y % 400 == 0)
  }

  /** The day number of 1 January. */
  function DayFromYear(y: int): int {
    365 * (y - 1970) + (y - 1969) / 4 - (y - 1901) / 100 + (y - 1601) / 400
  }

  function YearLength(y: int): int {
    if Leap(y) then 366 else 365
  }

  const MONTH_STARTS := [0, 31, 59, 90, 120, 151, 181, 212, 243, 273, 304, 334, 365]

  /** Days of the year before a month; month 13 stands for the end of the year. */
  function MonthStart(y: int, month: int): int
    requires 1 <= month <= 13
  {
    MONTH_STARTS[month - 1] + (if Leap(y) && month > 2 then 1 else 0)
  }

  predicate ValidDate(d: CivilDate) {
    && 1 <= d.month <= 12
    && 1 <= d.day <= MonthStart(d.year, d.month + 1) - MonthStart(d.year, d.month)
  }

  function DayNumber(d: CivilDate): int
    requires ValidDate(d)
  {
    DayFromYear(d.year) + MonthStart(d.year, d.month) + d.day - 1
  }

  /** A quotient grows by one exactly at the multiples of the divisor. */
  lemma QuotientStep(x: int, k: int)
    requires k > 0
    ensures (x + 1) / k == x / k + (if (x + 1) % k == 0 then 1 else 0)
  {
    var q, r := x / k, x % k;
    assert x == k * q + r;
    if r + 1 < k {
      QuotientOf(x + 1, k, q, r + 1);
    } else {
      assert x + 1 == k * (q + 1);
      QuotientOf(x + 1, k, q + 1, 0);
    }
  }

  lemma QuotientOf(x: int, k: int, q: int, r: int)
    requires k > 0 && x == k * q + r && 0 <= r < k
    ensures x / k == q && x % k == r
  {
    var d := x / k - q;
    assert k * d == r - x % k;
    assert (d >= 1 ==> k * d >= k) && (d <= -1 ==> k * d <= -k);
  }

  lemma ShiftedMultiple(y: int, k: int, m: int)
    requires k > 0
    ensures (y - k * m) % k == y % k
  {
    var q, r := y / k, y % k;
    assert y - k * m == k * (q - m) + r;
    QuotientOf(y - k * m, k, q - m, r);
  }

  lemma YearStep(y: int)
    ensures DayFromYear(y + 1) == DayFromYear(y) + YearLength(y)
  {
    QuotientStep(y - 1969, 4);
    QuotientStep(y - 1901, 100);
    QuotientStep(y - 1601, 400);
    ShiftedMultiple(y, 4, 492);
    ShiftedMultiple(y, 100, 19);
    ShiftedMultiple(y, 400, 4);
    MultiplesNest(y);
  }

  lemma MultiplesNest(y: int)
    ensures y % 400 == 0 ==> y % 100 == 0
    ensures y % 100 == 0 ==> y % 4 == 0
  {
    if y % 400 == 0 { QuotientOf(y, 100, 4 * (y / 400), 0); }
    if y % 100 == 0 { QuotientOf(y, 4, 25 * (y / 100), 0); }
  }

  /** The step of an increasing sequence a day falls in, searched from a guess. */
  function Search(start: int -> int, guess: int, day: int): (y: int)
    requires forall y :: start(y) < start(y + 1)
    ensures start(y) <= day < start(y + 1)
    decreases day < start(guess), if day < start(guess) then start(guess) - day else day - start(guess)
  {
    assert start(guess - 1) < start(guess - 1 + 1);
    if day < start(guess) then Search(start, guess - 1, day)
    else if day >= start(guess + 1) then Search(start, guess + 1, day)
    else guess
  }

  lemma YearsIncrease()
    ensures forall y :: DayFromYear(y) < DayFromYear(y + 1)
  {
    forall y ensures DayFromYear(y) < DayFromYear(y + 1) { YearStep(y); }
  }

  function YearOf(day: int): (y: int)
    ensures DayFromYear(y) <= day < DayFromYear(y + 1)
  {
    YearsIncrease();
    Search(DayFromYear, 1970, day)
  }

  /** The month a day of the year falls in, searched downwards. */
  function MonthOf(y: int, dayOfYear: int, guess: int): (m: int)
    requires 1 <= guess <= 12 && 0 <= dayOfYear < MonthStart(y, guess + 1)
    ensures 1 <= m <= 12 && MonthStart(y, m) <= dayOfYear < MonthStart(y, m + 1)
    decreases guess
  {
    if dayOfYear < MonthStart(y, guess) then MonthOf(y, dayOfYear, guess - 1) else guess
  }

  lemma WithinYear(y: int, day: int)
    requires DayFromYear(y) <= day < DayFromYear(y + 1)
    ensures 0 <= day - DayFromYear(y) < MonthStart(y, 13)
  {
    YearStep(y);
    hide DayFromYear;
  }

  /** The date of a day number: the inverse of `DayNumber`. */
  function Civil(day: int): (d: CivilDate)
    ensures ValidDate(d) && DayNumber(d) == day
  {
    var y := YearOf(day);
    WithinYear(y, day);
    var dayOfYear := day - DayFromYear(y);
    var m := MonthOf(y, dayOfYear, 12);
    CivilDate(y, m, dayOfYear - MonthStart(y, m) + 1)
  }

  lemma {:induction false} YearsApart(a: int, b: int)
    requires a <= b
    ensures DayFromYear(a) + 365 * (b - a) <= DayFromYear(b)
    decreases b - a
  {
    if a < b {
      YearStep(b - 1);
      YearsApart(a, b - 1);
    }
  }

  lemma DateWithinYear(d: CivilDate)
    requires ValidDate(d)
    ensures DayFromYear(d.year) <= DayNumber(d) < DayFromYear(d.year + 1)
  {
    YearStep(d.year);
  }

  /** Later days are not in earlier years. */
  lemma YearsFollowDays(a: CivilDate, b: CivilDate)
    requires ValidDate(a) && ValidDate(b) && DayNumber(a) <= DayNumber(b)
    ensures a.year <= b.year
  {
    hide DayNumber, DayFromYear;
    DateWithinYear(a);
    DateWithinYear(b);
    if b.year < a.year { YearsApart(b.year + 1, a.year); }
  }

  /** A day number belongs to one date only. */
  lemma DateUnique(a: CivilDate, b: CivilDate)
    requires ValidDate(a) && ValidDate(b) && DayNumber(a) == DayNumber(b)
    ensures a == b
  {
    YearsFollowDays(a, b);
    YearsFollowDays(b, a);
  }

  lemma CivilInverse(d: CivilDate)
    requires ValidDate(d)
    ensures Civil(DayNumber(d)) == d
  {
    DateUnique(Civil(DayNumber(d)), d);
  }
}
