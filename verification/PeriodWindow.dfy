/** Budget periods anchored to the user's own midnight. Instants and offsets are milliseconds; a
    zone is its offset as a function of the instant. */
module PeriodWindow {
  import opened Calendar

  const DAY := 86_400_000

  datatype Period = Daily | Weekly | Monthly

  /** How far ahead of UTC the zone is at an instant. */
  type Offset = int -> int

  /** `Date.UTC` at midnight, as a day number; two-digit years count from 1900. */
  function UtcDay(d: CivilDate): int
    requires ValidDate(d)
  {
    var year := if 0 <= d.year <= 99 then 1900 + d.year else d.year;
    DayFromYear(year) + MonthStart(year, d.month) + d.day - 1
  }

  function AddDays(d: CivilDate, days: int): CivilDate
    requires ValidDate(d)
  {
    Civil(UtcDay(d) + days)
  }

  /** Day of the week of a day number, Sunday being 0. */
  function UtcWeekday(day: int): int {
    (day + 4) % 7
  }

  function StartCivilDate(period: Period, today: CivilDate): (start: CivilDate)
    requires ValidDate(today)
    ensures ValidDate(start)
  {
    match period
    case Daily => today
    case Weekly => AddDays(today, -((UtcWeekday(UtcDay(today)) + 6) % 7))
    case Monthly => today.(day := 1)
  }

  function Advance(period: Period, start: CivilDate): (end: CivilDate)
    requires ValidDate(start)
    ensures ValidDate(end)
  {
    match period
    case Daily => AddDays(start, 1)
    case Weekly => AddDays(start, 7)
    case Monthly =>
      if start.month == 12 then CivilDate(start.year + 1, 1, 1)
      else start.(month := start.month + 1, day := 1)
  }

  /** What the wall clock shows, as milliseconds of the same reading in UTC. */
  function WallClock(off: Offset, instant: int): int {
    instant + off(instant)
  }

  function CivilDateIn(off: Offset, instant: int): (d: CivilDate)
    ensures ValidDate(d)
  {
    Civil(WallClock(off, instant) / DAY)
  }

  /** Local midnight as a UTC reading. */
  function AsIfUtc(d: CivilDate): int
    requires ValidDate(d)
  {
    UtcDay(d) * DAY
  }

  /** Two passes: the offset at the same UTC reading, then the offset at the first guess. */
  function InstantAtCivilMidnight(off: Offset, d: CivilDate): int
    requires ValidDate(d)
  {
    Solve(off, AsIfUtc(d))
  }

  function Solve(off: Offset, reading: int): int {
    var firstGuess := reading - off(reading);
    reading - off(firstGuess)
  }

  datatype Window = Window(start: int, end: int)

  function WindowOf(period: Period, off: Offset, now: int): Window {
    var start := StartCivilDate(period, CivilDateIn(off, now));
    Window(InstantAtCivilMidnight(off, start), InstantAtCivilMidnight(off, Advance(period, start)))
  }

  // ---------------------------------------------------------------------------------------------
  // The civil dates of a period
  // ---------------------------------------------------------------------------------------------

  /** Dates `Date.UTC` reads as written. */
  predicate Modern(d: CivilDate) {
    ValidDate(d) && d.year >= 100
  }

  /** The period's dates enclose today; a week starts on Monday (ISO 8601), a month on the first and ends on
      the first of the month after it. */
  lemma PeriodEnclosesToday(period: Period, today: CivilDate)
    requires Modern(today) && Modern(StartCivilDate(period, today))
    ensures var start := StartCivilDate(period, today);
            var end := Advance(period, start);
            && Modern(end)
            && UtcDay(start) <= UtcDay(today) < UtcDay(end)
            && match period
               case Daily => start == today && UtcDay(end) == UtcDay(start) + 1
               case Weekly => UtcWeekday(UtcDay(start)) == 1 && UtcDay(end) == UtcDay(start) + 7
               case Monthly =>
                 && start == today.(day := 1) && end.day == 1
                 && 12 * end.year + end.month == 12 * today.year + today.month + 1
  {
    match period
    case Daily => DaysAdd(today, 1);
    case Weekly => WeekEnclosesToday(today);
    case Monthly => MonthEnclosesToday(today);
  }

  lemma WeekEnclosesToday(today: CivilDate)
    requires Modern(today) && Modern(StartCivilDate(Weekly, today))
    ensures var start := StartCivilDate(Weekly, today);
            && Modern(Advance(Weekly, start)) && UtcDay(Advance(Weekly, start)) == UtcDay(start) + 7
            && UtcDay(start) <= UtcDay(today) < UtcDay(start) + 7
            && UtcWeekday(UtcDay(start)) == 1
  {
    hide UtcDay, AddDays;
    var back := (UtcWeekday(UtcDay(today)) + 6) % 7;
    MondayBefore(UtcDay(today));
    DaysTaken(today, back);
    DaysAdd(AddDays(today, -back), 7);
  }

  lemma MonthEnclosesToday(today: CivilDate)
    requires Modern(today)
    ensures var start := StartCivilDate(Monthly, today);
            var end := Advance(Monthly, start);
            && Modern(end) && start.day == 1 && end.day == 1
            && 12 * end.year + end.month == 12 * today.year + today.month + 1
            && UtcDay(start) <= UtcDay(today) < UtcDay(end)
  {
    NextMonth(today);
  }

  /** Taking days away goes back by that many days, where the result is read as written. */
  lemma DaysTaken(d: CivilDate, days: int)
    requires 0 <= days && Modern(d) && Modern(AddDays(d, -days))
    ensures UtcDay(AddDays(d, -days)) == UtcDay(d) - days
  {}

  /** Adding days moves on by that many days. */
  lemma DaysAdd(start: CivilDate, days: nat)
    requires Modern(start)
    ensures Modern(AddDays(start, days)) && UtcDay(AddDays(start, days)) == UtcDay(start) + days
  {
    YearsFollowDays(start, AddDays(start, days));
  }

  lemma MondayBefore(day: int)
    ensures var back := (UtcWeekday(day) + 6) % 7;
            0 <= back <= 6 && UtcWeekday(day - back) == 1
  {}

  lemma NextMonth(d: CivilDate)
    requires ValidDate(d)
    ensures DayNumber(d.(day := 1)) <= DayNumber(d) < DayNumber(Advance(Monthly, d.(day := 1)))
  {
    YearStep(d.year);
  }

  // ---------------------------------------------------------------------------------------------
  // Zones with at most one transition
  // ---------------------------------------------------------------------------------------------

  datatype Zone = Zone(before: int, at: int, after: int)

  function OffsetOf(z: Zone): Offset {
    (t: int) => if t < z.at then z.before else z.after
  }

  predicate Shows(z: Zone, instant: int, reading: int) {
    WallClock(OffsetOf(z), instant) == reading
  }

  /** The two-pass solver is exact: if the clock ever shows the reading, it shows it at the
      instant returned. */
  lemma SolverExact(z: Zone, reading: int)
    ensures (exists t :: Shows(z, t, reading)) <==> Shows(z, Solve(OffsetOf(z), reading), reading)
  {
    if t :| Shows(z, t, reading) {}
  }

  /** A reading the clock jumps over. */
  ghost predicate Skipped(z: Zone, reading: int) {
    forall t :: !Shows(z, t, reading)
  }

  /** For a midnight that is skipped, the result lies after the jump exactly if the equivalent UTC
      time does, which is where the zone's clock is ahead; otherwise the result is an instant of the
      previous day. It is the first instant of the day only if the jump starts at that midnight. */
  lemma SkippedMidnight(z: Zone, reading: int)
    requires Skipped(z, reading)
    ensures reading - z.after < z.at <= reading - z.before
    ensures var t := Solve(OffsetOf(z), reading);
            && (WallClock(OffsetOf(z), t) > reading <==> reading >= z.at)
            && (WallClock(OffsetOf(z), t) < reading <==> reading < z.at)
            && (t == z.at <==> reading >= z.at && z.at + z.before == reading)
  {
    assert !Shows(z, reading - z.after, reading);
    assert !Shows(z, reading - z.before, reading);
  }

  /** Sao Paulo, 4 November 2018: midnight is skipped from UTC-3 to UTC-2, and the day is taken to
      start at 23:00 of the day before. */
  lemma SkippedMidnightWest()
    ensures var z := Zone(-10_800_000, 1_541_300_400_000, -7_200_000);
            var reading := 1_541_289_600_000;
            && reading % DAY == 0 && Skipped(z, reading)
            && WallClock(OffsetOf(z), Solve(OffsetOf(z), reading)) == reading - 3_600_000
  {}

  predicate Existing(z: Zone, d: CivilDate)
    requires ValidDate(d)
  {
    Shows(z, InstantAtCivilMidnight(OffsetOf(z), d), AsIfUtc(d))
  }

  /** If both midnights exist, the window fails to reach down to now exactly if the transition still lies
      ahead and the clock shows the first midnight again after it; and it fails to reach up past now exactly
      if the transition lies behind and the clock showed the second midnight already before it. */
  lemma WindowContainsNowIff(period: Period, z: Zone, now: int)
    requires var today := CivilDateIn(OffsetOf(z), now);
             var start := StartCivilDate(period, today);
             Modern(today) && Modern(start) && Existing(z, start) && Existing(z, Advance(period, start))
    ensures var w := WindowOf(period, OffsetOf(z), now);
            var start := StartCivilDate(period, CivilDateIn(OffsetOf(z), now));
            var a, b := AsIfUtc(start), AsIfUtc(Advance(period, start));
            && (w.start <= now <==> !(now < z.at <= a && z.at <= a - z.after))
            && (now < w.end <==> !(b < z.at <= now && b - z.before < z.at))
  {
    hide StartCivilDate, Advance, CivilDateIn, Modern;
    var start := StartCivilDate(period, CivilDateIn(OffsetOf(z), now));
    PeriodEnclosesReading(period, OffsetOf(z), now);
    EdgesAroundNow(z, now, AsIfUtc(start), AsIfUtc(Advance(period, start)));
  }

  lemma EdgesAroundNow(z: Zone, now: int, start: int, end: int)
    requires start <= WallClock(OffsetOf(z), now) < end
    requires Shows(z, Solve(OffsetOf(z), start), start) && Shows(z, Solve(OffsetOf(z), end), end)
    ensures Solve(OffsetOf(z), start) <= now <==> !(now < z.at <= start && z.at <= start - z.after)
    ensures now < Solve(OffsetOf(z), end) <==> !(end < z.at <= now && end - z.before < z.at)
  {}

  /** The clock now reads a time from the period's first midnight on, and before the next period's. */
  lemma PeriodEnclosesReading(period: Period, off: Offset, now: int)
    requires Modern(CivilDateIn(off, now)) && Modern(StartCivilDate(period, CivilDateIn(off, now)))
    ensures var start := StartCivilDate(period, CivilDateIn(off, now));
            AsIfUtc(start) <= WallClock(off, now) < AsIfUtc(Advance(period, start))
  {
    hide StartCivilDate, Advance, CivilDateIn, Modern, UtcDay;
    var today := CivilDateIn(off, now);
    var start := StartCivilDate(period, today);
    PeriodEnclosesToday(period, today);
    ReadingWithinDay(off, now);
    MultipleOfDay(UtcDay(start), UtcDay(today));
    MultipleOfDay(UtcDay(today) + 1, UtcDay(Advance(period, start)));
  }

  lemma ReadingWithinDay(off: Offset, now: int)
    requires Modern(CivilDateIn(off, now))
    ensures var d := CivilDateIn(off, now);
            AsIfUtc(d) <= WallClock(off, now) < AsIfUtc(d) + DAY
  {}

  lemma MultipleOfDay(a: int, b: int)
    requires a <= b
    ensures a * DAY <= b * DAY
  {}

  ghost predicate ShownOnce(z: Zone, reading: int) {
    && (exists t :: Shows(z, t, reading))
    && forall t, u :: Shows(z, t, reading) && Shows(z, u, reading) ==> t == u
  }

  /** If the midnights at both edges exist and are unique, now is inside its window. */
  lemma WindowContainsNow(period: Period, z: Zone, now: int)
    requires var today := CivilDateIn(OffsetOf(z), now);
             var start := StartCivilDate(period, today);
             && Modern(today) && Modern(start)
             && ShownOnce(z, AsIfUtc(start)) && ShownOnce(z, AsIfUtc(Advance(period, start)))
    ensures var w := WindowOf(period, OffsetOf(z), now);
            w.start <= now < w.end
  {
    hide StartCivilDate, Advance, CivilDateIn, Modern, ShownOnce;
    var start := StartCivilDate(period, CivilDateIn(OffsetOf(z), now));
    PeriodEnclosesReading(period, OffsetOf(z), now);
    UniqueEdgesAroundNow(z, now, AsIfUtc(start), AsIfUtc(Advance(period, start)));
  }

  lemma UniqueEdgesAroundNow(z: Zone, now: int, start: int, end: int)
    requires start <= WallClock(OffsetOf(z), now) < end && ShownOnce(z, start) && ShownOnce(z, end)
    ensures Solve(OffsetOf(z), start) <= now < Solve(OffsetOf(z), end)
  {
    SolverExact(z, start);
    SolverExact(z, end);
    EdgesAroundNow(z, now, start, end);
    assert Shows(z, start - z.before, start) || start - z.before >= z.at;
    assert Shows(z, end - z.after, end) || end - z.after < z.at;
  }

  /** Where the offset never changes, now is always inside its window. */
  lemma FixedOffsetContainsNow(period: Period, offset: int, now: int)
    requires Modern(Civil((now + offset) / DAY)) && Modern(StartCivilDate(period, Civil((now + offset) / DAY)))
    ensures var w := WindowOf(period, OffsetOf(Zone(offset, 0, offset)), now);
            w.start <= now < w.end
  {
    hide StartCivilDate, Advance, Modern, Civil;
    var z := Zone(offset, 0, offset);
    var start := StartCivilDate(period, CivilDateIn(OffsetOf(z), now));
    PeriodEnclosesReading(period, OffsetOf(z), now);
    FixedOffsetShowsOnce(z, AsIfUtc(start));
    FixedOffsetShowsOnce(z, AsIfUtc(Advance(period, start)));
    UniqueEdgesAroundNow(z, now, AsIfUtc(start), AsIfUtc(Advance(period, start)));
  }

  lemma FixedOffsetShowsOnce(z: Zone, reading: int)
    requires z.before == z.after
    ensures ShownOnce(z, reading)
  {
    assert Shows(z, reading - z.before, reading);
  }

  /** Amman, 28 October 2011: clocks go back from 01:00 to 00:00, the solver picks the second
      midnight, and half an hour into the day the daily window has not begun yet. */
  lemma RepeatedMidnightEast()
    ensures var z := Zone(10_800_000, 1_319_752_800_000, 7_200_000);
            var now := 1_319_751_000_000;
            && WallClock(OffsetOf(z), now) == 15275 * DAY + 1_800_000
            && WindowOf(Daily, OffsetOf(z), now).start == z.at > now
  {
    hide CivilDateIn, ValidDate, DayNumber, Advance, Solve;
    var off := OffsetOf(Zone(10_800_000, 1_319_752_800_000, 7_200_000));
    ThatDayInAmman(off, 1_319_751_000_000);
    ThatMidnightInAmman();
    assert StartCivilDate(Daily, THAT_DAY) == THAT_DAY;
    assert AsIfUtc(THAT_DAY) == 15275 * DAY;
  }

  const THAT_DAY := CivilDate(2011, 10, 28)

  lemma ThatDayNumber()
    ensures ValidDate(THAT_DAY) && DayNumber(THAT_DAY) == 15275
  {}

  lemma ThatDayInAmman(off: Offset, now: int)
    requires WallClock(off, now) == 15275 * DAY + 1_800_000
    ensures ValidDate(THAT_DAY) && CivilDateIn(off, now) == THAT_DAY && UtcDay(THAT_DAY) == 15275
  {
    hide ValidDate, DayNumber, Civil;
    ThatDayNumber();
    CivilInverse(THAT_DAY);
    assert WallClock(off, now) / DAY == 15275;
  }

  lemma ThatMidnightInAmman()
    ensures Solve(OffsetOf(Zone(10_800_000, 1_319_752_800_000, 7_200_000)), 15275 * DAY) == 1_319_752_800_000
  {}

  // ---------------------------------------------------------------------------------------------
  // Consecutive windows, in any zone
  // ---------------------------------------------------------------------------------------------

  /** Instants of consecutive periods: each one's period starts where the previous one's ends. */
  predicate Consecutive(period: Period, off: Offset, nows: seq<int>) {
    forall i :: 0 <= i < |nows| - 1 ==>
      StartCivilDate(period, CivilDateIn(off, nows[i + 1]))
      == Advance(period, StartCivilDate(period, CivilDateIn(off, nows[i])))
  }

  /** Whatever the zone does, each window ends where the next one starts. */
  lemma WindowsShareEdges(period: Period, off: Offset, nows: seq<int>, i: nat)
    requires Consecutive(period, off, nows) && i + 1 < |nows|
    ensures WindowOf(period, off, nows[i]).end == WindowOf(period, off, nows[i + 1]).start
  {
    assert StartCivilDate(period, CivilDateIn(off, nows[i + 1]))
        == Advance(period, StartCivilDate(period, CivilDateIn(off, nows[i])));
  }

  datatype Spending = Spending(at: int, cost: real)

  function SpendIn(events: seq<Spending>, w: Window): real {
    if events == [] then 0.0
    else (if w.start <= events[0].at < w.end then events[0].cost else 0.0) + SpendIn(events[1..], w)
  }

  function SpendOver(events: seq<Spending>, windows: seq<Window>): real {
    if windows == [] then 0.0 else SpendOver(events, windows[..|windows| - 1]) + SpendIn(events, windows[|windows| - 1])
  }

  function Windows(period: Period, off: Offset, nows: seq<int>): (ws: seq<Window>)
    ensures |ws| == |nows| && forall i :: 0 <= i < |nows| ==> ws[i] == WindowOf(period, off, nows[i])
  {
    seq(|nows|, i requires 0 <= i < |nows| => WindowOf(period, off, nows[i]))
  }

  lemma {:induction false} SpendSplits(events: seq<Spending>, a: int, b: int, c: int)
    requires a <= b <= c
    ensures SpendIn(events, Window(a, b)) + SpendIn(events, Window(b, c)) == SpendIn(events, Window(a, c))
  {
    if events != [] { SpendSplits(events[1..], a, b, c); }
  }

  /** The zone's offsets lie within a day of each other. */
  ghost predicate WithinADay(off: Offset) {
    forall t, u :: off(t) - off(u) <= DAY
  }

  /** No window ends before it starts. */
  predicate Forward(ws: seq<Window>) {
    forall i :: 0 <= i < |ws| ==> ws[i].start <= ws[i].end
  }

  /** In such a zone no window is reversed. */
  lemma WindowForward(period: Period, off: Offset, now: int)
    requires WithinADay(off)
    requires Modern(CivilDateIn(off, now)) && Modern(StartCivilDate(period, CivilDateIn(off, now)))
    ensures WindowOf(period, off, now).start <= WindowOf(period, off, now).end
  {
    var today := CivilDateIn(off, now);
    var start := StartCivilDate(period, today);
    var end := Advance(period, start);
    PeriodEnclosesToday(period, today);
    MultipleOfDay(UtcDay(start) + 1, UtcDay(end));
    var a, b := AsIfUtc(start), AsIfUtc(end);
    assert off(b - off(b)) - off(a - off(a)) <= DAY;
  }

  lemma {:induction false} SpendChain(events: seq<Spending>, ws: seq<Window>)
    requires ws != []
    requires Forward(ws)
    requires forall i :: 0 <= i < |ws| - 1 ==> ws[i].end == ws[i + 1].start
    ensures ws[0].start <= ws[|ws| - 1].end
    ensures SpendOver(events, ws) == SpendIn(events, Window(ws[0].start, ws[|ws| - 1].end))
  {
    var n := |ws| - 1;
    if n == 0 {
      assert ws[..0] == [];
    } else {
      SpendChain(events, ws[..n]);
      assert ws[n - 1].end == ws[n - 1 + 1].start;
      SpendSplits(events, ws[0].start, ws[n].start, ws[n].end);
    }
  }

  /** Spend summed over consecutive windows is the spend over their union: no event is counted
      twice and none falls between two windows. */
  lemma SpendAddsUp(period: Period, off: Offset, nows: seq<int>, events: seq<Spending>)
    requires nows != [] && Consecutive(period, off, nows) && Forward(Windows(period, off, nows))
    ensures var ws := Windows(period, off, nows);
            && ws[0].start <= ws[|ws| - 1].end
            && SpendOver(events, ws) == SpendIn(events, Window(ws[0].start, ws[|ws| - 1].end))
  {
    hide WindowOf, StartCivilDate, Advance, CivilDateIn;
    var ws := Windows(period, off, nows);
    forall i | 0 <= i < |ws| - 1 ensures ws[i].end == ws[i + 1].start { WindowsShareEdges(period, off, nows, i); }
    SpendChain(events, ws);
  }
}
