/**
 * Local calendar days over a piecewise-constant zone offset. Instants and wall times are
 * milliseconds, a calendar date is the number of days since the epoch.
 */
module LocalDays {
  const DAY := 86_400_000

  /** Changes are in time order; each offset holds from its instant to the next change. */
  datatype Change = Change(at: int, offset: int)
  datatype Zone = Zone(initial: int, changes: seq<Change>)

  function OffsetMs(zone: Zone, utc: int): int
    decreases |zone.changes|
  {
    var n := |zone.changes|;
    if n == 0 then zone.initial
    else if zone.changes[n - 1].at <= utc then zone.changes[n - 1].offset
    else OffsetMs(Zone(zone.initial, zone.changes[..n - 1]), utc)
  }

  /** What the wall clock shows at an instant. */
  function Local(zone: Zone, utc: int): int {
    utc + OffsetMs(zone, utc)
  }

  function LocalDate(zone: Zone, utc: int): int {
    Local(zone, utc) / DAY
  }

  /** The wall time of a date's midnight, read as if it were UTC. */
  function Midnight(date: int): int {
    date * DAY
  }

  /** Two passes: the offset is looked up at the wall time, then at the instant that gives. */
  function ZonedDayStart(zone: Zone, date: int): int {
    var wall := Midnight(date);
    var first := wall - OffsetMs(zone, wall);
    wall - OffsetMs(zone, first)
  }

  function AddDaysToDate(date: int, days: int): int {
    date + days
  }

  datatype Range = Range(gte: int, lt: int) {
    predicate Has(utc: int) { gte <= utc < lt }
  }

  function ZonedRange(zone: Zone, fromDate: int, toDate: int): Range {
    Range(ZonedDayStart(zone, fromDate), ZonedDayStart(zone, AddDaysToDate(toDate, 1)))
  }

  // ----- one change near a midnight --------------------------------------------------------

  /** How far from a date's UTC midnight its local midnight can be: no offset exceeds a day. */
  ghost predicate OffsetsWithinADay(zone: Zone) {
    forall utc :: -DAY <= OffsetMs(zone, utc) <= DAY
  }

  /**
   * Within a day of the date's UTC midnight the offset is `before` up to the instant `at` and
   * `after` from it on; with `before == after` there is no change at all.
   */
  ghost predicate OneChangeNear(zone: Zone, date: int, at: int, before: int, after: int) {
    && (before == after || Midnight(date) - DAY < at <= Midnight(date) + DAY)
    && forall utc :: Midnight(date) - DAY <= utc <= Midnight(date) + DAY ==>
                       OffsetMs(zone, utc) == if utc < at then before else after
  }

  /** The clock jumps over this midnight. */
  predicate Skipped(date: int, at: int, before: int, after: int) {
    at + before <= Midnight(date) < at + after
  }

  /** Some instant shows this midnight on the wall clock. */
  ghost predicate MidnightHappens(zone: Zone, date: int) {
    exists utc :: Local(zone, utc) == Midnight(date)
  }

  /** Both offsets are in force somewhere near the midnight, so both are at most a day. */
  lemma OffsetsNear(zone: Zone, date: int, at: int, before: int, after: int)
    requires OffsetsWithinADay(zone) && OneChangeNear(zone, date, at, before, after)
    ensures -DAY <= before <= DAY && -DAY <= after <= DAY
  {
    var lo, hi := Midnight(date) - DAY, Midnight(date) + DAY;
    assert -DAY <= OffsetMs(zone, lo) <= DAY && -DAY <= OffsetMs(zone, hi) <= DAY;
    assert OffsetMs(zone, lo) == if lo < at then before else after;
    assert OffsetMs(zone, hi) == if hi < at then before else after;
  }

  /** The wall clock at every instant, near the midnight or not. */
  lemma LocalNear(zone: Zone, date: int, at: int, before: int, after: int, utc: int)
    requires OffsetsWithinADay(zone) && OneChangeNear(zone, date, at, before, after)
    ensures utc < Midnight(date) - DAY ==> Local(zone, utc) < Midnight(date)
    ensures utc > Midnight(date) + DAY ==> Local(zone, utc) > Midnight(date)
    ensures Midnight(date) - DAY <= utc <= Midnight(date) + DAY ==>
              Local(zone, utc) == utc + if utc < at then before else after
  {
    assert -DAY <= OffsetMs(zone, utc) <= DAY;
  }

  /** A midnight happens exactly when the clock does not jump over it. */
  lemma SkippedMeansNeverHappens(zone: Zone, date: int, at: int, before: int, after: int)
    requires OffsetsWithinADay(zone) && OneChangeNear(zone, date, at, before, after)
    ensures MidnightHappens(zone, date) <==> !Skipped(date, at, before, after)
  {
    var wall := Midnight(date);
    OffsetsNear(zone, date, at, before, after);
    if Skipped(date, at, before, after) {
      forall utc ensures Local(zone, utc) != wall {
        LocalNear(zone, date, at, before, after, utc);
      }
    } else {
      var utc := wall - if wall < at + before then before else after;
      LocalNear(zone, date, at, before, after, utc);
      assert Local(zone, utc) == wall;
    }
  }

  /**
   * With at most one change near, two passes find an instant that shows the date's midnight
   * exactly when there is one.
   */
  lemma DayStartShowsMidnight(zone: Zone, date: int, at: int, before: int, after: int)
    requires OffsetsWithinADay(zone) && OneChangeNear(zone, date, at, before, after)
    ensures Local(zone, ZonedDayStart(zone, date)) == Midnight(date) <==> MidnightHappens(zone, date)
  {
    OffsetsNear(zone, date, at, before, after);
    SkippedMeansNeverHappens(zone, date, at, before, after);
    DayStartValue(zone, date, at, before, after);
    LocalNear(zone, date, at, before, after, ZonedDayStart(zone, date));
  }

  /** Where the two passes land. */
  lemma DayStartValue(zone: Zone, date: int, at: int, before: int, after: int)
    requires OffsetsWithinADay(zone) && OneChangeNear(zone, date, at, before, after)
    ensures var wall := Midnight(date);
            var first := wall - if wall < at then before else after;
            ZonedDayStart(zone, date) == wall - if first < at then before else after
  {
    var wall := Midnight(date);
    OffsetsNear(zone, date, at, before, after);
    assert OffsetMs(zone, wall) == if wall < at then before else after;
    var first := wall - OffsetMs(zone, wall);
    assert OffsetMs(zone, first) == if first < at then before else after;
  }

  /**
   * Whether the instants from the day start on are those whose local date is the date or later.
   * A jump forward must not pass over the midnight (landing on it from the instant it names is
   * fine east of Greenwich); a jump back must not repeat it (landing on it is fine west).
   */
  predicate CleanMidnight(date: int, at: int, before: int, after: int) {
    var wall := Midnight(date);
    if before <= after then
      wall < at + before || at + after <= wall || (wall == at + before && before >= 0)
    else
      wall < at + after || at + before <= wall || (wall == at + after && after < 0)
  }

  ghost predicate SplitsDates(zone: Zone, date: int) {
    forall utc :: ZonedDayStart(zone, date) <= utc <==> date <= LocalDate(zone, utc)
  }

  lemma DateReached(zone: Zone, date: int, utc: int)
    ensures date <= LocalDate(zone, utc) <==> Midnight(date) <= Local(zone, utc)
  {
  }

  /**
   * The day start separates the instants of earlier local dates from the rest exactly when the
   * midnight is clean.
   */
  lemma DayStartSplitsDates(zone: Zone, date: int, at: int, before: int, after: int)
    requires OffsetsWithinADay(zone) && OneChangeNear(zone, date, at, before, after)
    ensures SplitsDates(zone, date) <==> CleanMidnight(date, at, before, after)
  {
    var wall, start := Midnight(date), ZonedDayStart(zone, date);
    OffsetsNear(zone, date, at, before, after);
    DayStartValue(zone, date, at, before, after);
    if CleanMidnight(date, at, before, after) {
      forall utc ensures start <= utc <==> date <= LocalDate(zone, utc) {
        DateReached(zone, date, utc);
        LocalNear(zone, date, at, before, after, utc);
      }
    } else {
      var utc := Misplaced(date, at, before, after);
      DateReached(zone, date, utc);
      LocalNear(zone, date, at, before, after, utc);
      assert !(start <= utc <==> date <= LocalDate(zone, utc));
    }
  }

  /** At an unclean midnight, an instant on the wrong side of the day start. */
  function Misplaced(date: int, at: int, before: int, after: int): int {
    var wall := Midnight(date);
    if before <= after then (if wall < at then wall - after else at)
    else (if wall < at then at else at - 1)
  }

  // ----- zones with an unclean midnight ----------------------------------------------------

  function OneChange(at: int, before: int, after: int): Zone {
    Zone(before, [Change(at, after)])
  }

  lemma OneChangeIsNear(date: int, at: int, before: int, after: int)
    requires -DAY <= before <= DAY && -DAY <= after <= DAY && Midnight(date) - DAY < at <= Midnight(date) + DAY
    ensures OffsetsWithinADay(OneChange(at, before, after))
    ensures OneChangeNear(OneChange(at, before, after), date, at, before, after)
  {
    var zone := OneChange(at, before, after);
    assert zone.changes[..0] == [];
    assert forall utc :: OffsetMs(zone, utc) == if at <= utc then after else before;
  }

  /**
   * A clock that jumps forward from a date's midnight splits dates there exactly when it is east
   * of Greenwich, or on its meridian, before the jump.
   */
  lemma JumpFromMidnight(date: int, before: int, after: int)
    requires -DAY < before < after <= DAY
    ensures SplitsDates(OneChange(Midnight(date) - before, before, after), date) <==> before >= 0
  {
    OneChangeIsNear(date, Midnight(date) - before, before, after);
    DayStartSplitsDates(OneChange(Midnight(date) - before, before, after), date, Midnight(date) - before, before, after);
  }

  /** One that jumps back to a date's midnight does exactly when it is west after the jump. */
  lemma JumpBackToMidnight(date: int, before: int, after: int)
    requires -DAY <= after < before < DAY
    ensures SplitsDates(OneChange(Midnight(date) - after, before, after), date) <==> after < 0
  {
    OneChangeIsNear(date, Midnight(date) - after, before, after);
    DayStartSplitsDates(OneChange(Midnight(date) - after, before, after), date, Midnight(date) - after, before, after);
  }

  /** A jump forward or back that passes over the midnight never does. */
  lemma JumpPastMidnight(date: int, at: int, before: int, after: int)
    requires -DAY < before < DAY && -DAY < after < DAY
    requires at + before < Midnight(date) < at + after || at + after < Midnight(date) < at + before
    ensures !SplitsDates(OneChange(at, before, after), date)
  {
    OneChangeIsNear(date, at, before, after);
    DayStartSplitsDates(OneChange(at, before, after), date, at, before, after);
  }

  // ----- ranges ----------------------------------------------------------------------------

  /**
   * A report range holds exactly the instants whose local date it names, when the midnights at
   * both its ends are clean.
   */
  lemma RangeIsLocalDates(zone: Zone, fromDate: int, toDate: int, first: Change, firstBefore: int,
                          last: Change, lastBefore: int, utc: int)
    requires OffsetsWithinADay(zone)
    requires OneChangeNear(zone, fromDate, first.at, firstBefore, first.offset)
    requires OneChangeNear(zone, toDate + 1, last.at, lastBefore, last.offset)
    requires CleanMidnight(fromDate, first.at, firstBefore, first.offset)
    requires CleanMidnight(toDate + 1, last.at, lastBefore, last.offset)
    ensures ZonedRange(zone, fromDate, toDate).Has(utc) <==> fromDate <= LocalDate(zone, utc) <= toDate
  {
    DayStartSplitsDates(zone, fromDate, first.at, firstBefore, first.offset);
    DayStartSplitsDates(zone, toDate + 1, last.at, lastBefore, last.offset);
    assert ZonedDayStart(zone, fromDate) <= utc <==> fromDate <= LocalDate(zone, utc);
    assert ZonedDayStart(zone, toDate + 1) <= utc <==> toDate + 1 <= LocalDate(zone, utc);
  }

  /** The offset a day start is worked out with: the second of the two looked up. */
  function OffsetUsed(zone: Zone, date: int): int {
    OffsetMs(zone, Midnight(date) - OffsetMs(zone, Midnight(date)))
  }

  /** How far the offset moves ahead from a date's start to the start some days later. */
  function OffsetGain(zone: Zone, date: int, days: int): int {
    OffsetUsed(zone, date + days) - OffsetUsed(zone, date)
  }

  /** A day start passes a later one exactly when the offset gains more than the days between. */
  lemma DayStartsInOrder(zone: Zone, date: int, days: int)
    ensures ZonedDayStart(zone, date) <= ZonedDayStart(zone, date + days) <==> OffsetGain(zone, date, days) <= days * DAY
    ensures ZonedDayStart(zone, date + days) <= ZonedDayStart(zone, date) <==> OffsetGain(zone, date, days) >= days * DAY
  {
    assert Midnight(date + days) - Midnight(date) == days * DAY;
  }

  ghost predicate DaysInOrder(zone: Zone, fromDate: int, toDate: int) {
    forall date :: fromDate <= date <= toDate ==> ZonedDayStart(zone, date) <= ZonedDayStart(zone, date + 1)
  }

  ghost predicate DaysBackwards(zone: Zone, fromDate: int, toDate: int) {
    forall date :: fromDate <= date <= toDate ==> ZonedDayStart(zone, date + 1) <= ZonedDayStart(zone, date)
  }

  /** Within two days the offset never moves more than a day ahead or back. */
  ghost predicate NearbyOffsetsClose(zone: Zone) {
    forall u, v :: -2 * DAY <= u - v <= 2 * DAY ==> OffsetMs(zone, u) - OffsetMs(zone, v) <= DAY
  }

  lemma CloseOffsetsGiveOrder(zone: Zone, fromDate: int, toDate: int)
    requires NearbyOffsetsClose(zone)
    ensures DaysInOrder(zone, fromDate, toDate)
  {
    forall date | fromDate <= date <= toDate ensures ZonedDayStart(zone, date) <= ZonedDayStart(zone, date + 1) {
      var u, v := Midnight(date + 1), Midnight(date);
      assert OffsetMs(zone, u) - OffsetMs(zone, v) <= DAY && OffsetMs(zone, v) - OffsetMs(zone, u) <= DAY;
      assert OffsetMs(zone, u - OffsetMs(zone, u)) - OffsetMs(zone, v - OffsetMs(zone, v)) <= DAY;
    }
  }

  lemma {:induction false} StartsAscend(zone: Zone, fromDate: int, toDate: int, a: int, b: int)
    requires DaysInOrder(zone, fromDate, toDate) && fromDate <= a <= b <= toDate + 1
    ensures ZonedDayStart(zone, a) <= ZonedDayStart(zone, b)
    decreases b - a
  {
    if a < b {
      assert ZonedDayStart(zone, a) <= ZonedDayStart(zone, a + 1);
      StartsAscend(zone, fromDate, toDate, a + 1, b);
    }
  }

  /** The day whose range an instant falls in. */
  function FindDay(zone: Zone, fromDate: int, toDate: int, utc: int): (date: int)
    requires fromDate <= toDate && ZonedRange(zone, fromDate, toDate).Has(utc)
    ensures fromDate <= date <= toDate && ZonedRange(zone, date, date).Has(utc)
    decreases toDate - fromDate
  {
    if fromDate < toDate && utc < ZonedDayStart(zone, toDate) then FindDay(zone, fromDate, toDate - 1, utc) else toDate
  }

  lemma DayInsideRange(zone: Zone, fromDate: int, toDate: int, date: int, utc: int)
    requires DaysInOrder(zone, fromDate, toDate) && fromDate <= date <= toDate && ZonedRange(zone, date, date).Has(utc)
    ensures ZonedRange(zone, fromDate, toDate).Has(utc)
  {
    StartsAscend(zone, fromDate, toDate, fromDate, date);
    StartsAscend(zone, fromDate, toDate, date + 1, toDate + 1);
  }

  lemma OneDayOnly(zone: Zone, fromDate: int, toDate: int, d: int, e: int, utc: int)
    requires DaysInOrder(zone, fromDate, toDate) && fromDate <= d <= toDate && fromDate <= e <= toDate
    requires ZonedRange(zone, d, d).Has(utc) && ZonedRange(zone, e, e).Has(utc)
    ensures d == e
  {
    if d + 1 <= e {
      StartsAscend(zone, fromDate, toDate, d + 1, e);
    }
    if e + 1 <= d {
      StartsAscend(zone, fromDate, toDate, e + 1, d);
    }
  }

  /** At this instant: it is in the range if and only if one of the days has it, and then only one. */
  ghost predicate TiledAt(zone: Zone, fromDate: int, toDate: int, utc: int) {
    && (ZonedRange(zone, fromDate, toDate).Has(utc) <==>
          exists date :: fromDate <= date <= toDate && ZonedRange(zone, date, date).Has(utc))
    && forall d, e | fromDate <= d <= toDate && fromDate <= e <= toDate ::
         ZonedRange(zone, d, d).Has(utc) && ZonedRange(zone, e, e).Has(utc) ==> d == e
  }

  lemma OrderedDaysTile(zone: Zone, fromDate: int, toDate: int, utc: int)
    requires fromDate <= toDate && DaysInOrder(zone, fromDate, toDate)
    ensures TiledAt(zone, fromDate, toDate, utc)
  {
    if ZonedRange(zone, fromDate, toDate).Has(utc) {
      var date := FindDay(zone, fromDate, toDate, utc);
    }
    forall d | fromDate <= d <= toDate && ZonedRange(zone, d, d).Has(utc) {
      DayInsideRange(zone, fromDate, toDate, d, utc);
    }
    forall d, e | fromDate <= d <= toDate && fromDate <= e <= toDate
                  && ZonedRange(zone, d, d).Has(utc) && ZonedRange(zone, e, e).Has(utc) {
      OneDayOnly(zone, fromDate, toDate, d, e, utc);
    }
  }

  /**
   * Consecutive days tile a range: every instant of the range is in exactly one day of it, and
   * no day reaches outside it.
   */
  lemma DaysTile(zone: Zone, fromDate: int, toDate: int, utc: int)
    requires fromDate <= toDate && NearbyOffsetsClose(zone)
    ensures TiledAt(zone, fromDate, toDate, utc)
  {
    CloseOffsetsGiveOrder(zone, fromDate, toDate);
    OrderedDaysTile(zone, fromDate, toDate, utc);
  }

  // ----- exactly when days tile ------------------------------------------------------------

  /** How many of the days up to `toDate` have an instant. */
  function DaysWith(zone: Zone, fromDate: int, toDate: int, utc: int): nat
    decreases toDate - fromDate
  {
    if toDate < fromDate then 0
    else DaysWith(zone, fromDate, toDate - 1, utc) + if ZonedRange(zone, toDate, toDate).Has(utc) then 1 else 0
  }

  /** How many of them end before they start, with the instant in between. */
  function DaysAgainst(zone: Zone, fromDate: int, toDate: int, utc: int): nat
    decreases toDate - fromDate
  {
    if toDate < fromDate then 0
    else
      DaysAgainst(zone, fromDate, toDate - 1, utc)
      + if ZonedDayStart(zone, toDate + 1) <= utc < ZonedDayStart(zone, toDate) then 1 else 0
  }

  /** Days forward less days backward come to the range as a whole. */
  lemma {:induction false} CountsTelescope(zone: Zone, fromDate: int, toDate: int, utc: int)
    requires fromDate <= toDate + 1
    ensures DaysWith(zone, fromDate, toDate, utc) - DaysAgainst(zone, fromDate, toDate, utc)
            == (if ZonedRange(zone, fromDate, toDate).Has(utc) then 1 else 0)
               - if ZonedDayStart(zone, toDate + 1) <= utc < ZonedDayStart(zone, fromDate) then 1 else 0
    decreases toDate - fromDate
  {
    if fromDate <= toDate {
      CountsTelescope(zone, fromDate, toDate - 1, utc);
    }
  }

  lemma {:induction false} AtMostOneDay(zone: Zone, fromDate: int, toDate: int, utc: int)
    requires forall d, e | fromDate <= d <= toDate && fromDate <= e <= toDate ::
               ZonedRange(zone, d, d).Has(utc) && ZonedRange(zone, e, e).Has(utc) ==> d == e
    ensures DaysWith(zone, fromDate, toDate, utc) <= 1
    ensures DaysWith(zone, fromDate, toDate, utc) == 1 ==>
              exists date :: fromDate <= date <= toDate && ZonedRange(zone, date, date).Has(utc)
    decreases toDate - fromDate
  {
    if fromDate <= toDate {
      AtMostOneDay(zone, fromDate, toDate - 1, utc);
    }
  }

  lemma {:induction false} BackwardDayCounts(zone: Zone, fromDate: int, toDate: int, date: int, utc: int)
    requires fromDate <= date <= toDate && ZonedDayStart(zone, date + 1) <= utc < ZonedDayStart(zone, date)
    ensures DaysAgainst(zone, fromDate, toDate, utc) > 0
    decreases toDate - date
  {
    if date < toDate {
      BackwardDayCounts(zone, fromDate, toDate - 1, date, utc);
    }
  }

  /** Where days tile, one day that runs backwards turns the whole range around. */
  lemma BackwardDayTurnsRange(zone: Zone, fromDate: int, toDate: int, date: int)
    requires fromDate <= date <= toDate && ZonedDayStart(zone, date + 1) < ZonedDayStart(zone, date)
    requires TiledAt(zone, fromDate, toDate, ZonedDayStart(zone, date + 1))
    ensures ZonedDayStart(zone, toDate + 1) < ZonedDayStart(zone, fromDate)
  {
    var utc := ZonedDayStart(zone, date + 1);
    AtMostOneDay(zone, fromDate, toDate, utc);
    BackwardDayCounts(zone, fromDate, toDate, date, utc);
    CountsTelescope(zone, fromDate, toDate, utc);
  }

  lemma TiledDaysRunOneWay(zone: Zone, fromDate: int, toDate: int)
    requires forall utc :: TiledAt(zone, fromDate, toDate, utc)
    ensures DaysInOrder(zone, fromDate, toDate) || DaysBackwards(zone, fromDate, toDate)
  {
    if date :| fromDate <= date <= toDate && ZonedDayStart(zone, date + 1) < ZonedDayStart(zone, date) {
      BackwardDayTurnsRange(zone, fromDate, toDate, date);
      forall d | fromDate <= d <= toDate ensures ZonedDayStart(zone, d + 1) <= ZonedDayStart(zone, d) {
        var utc := ZonedDayStart(zone, d);
        assert TiledAt(zone, fromDate, toDate, utc);
        assert !ZonedRange(zone, fromDate, toDate).Has(utc) && !ZonedRange(zone, d, d).Has(utc);
      }
    }
  }

  lemma {:induction false} BackwardDaysDescend(zone: Zone, fromDate: int, toDate: int)
    requires fromDate <= toDate + 1 && DaysBackwards(zone, fromDate, toDate)
    ensures ZonedDayStart(zone, toDate + 1) <= ZonedDayStart(zone, fromDate)
    decreases toDate - fromDate
  {
    if fromDate <= toDate {
      BackwardDaysDescend(zone, fromDate, toDate - 1);
    }
  }

  lemma DaysTileIffOneWay(zone: Zone, fromDate: int, toDate: int)
    requires fromDate <= toDate
    ensures (forall utc :: TiledAt(zone, fromDate, toDate, utc)) <==>
            DaysInOrder(zone, fromDate, toDate) || DaysBackwards(zone, fromDate, toDate)
  {
    if DaysInOrder(zone, fromDate, toDate) {
      forall utc ensures TiledAt(zone, fromDate, toDate, utc) {
        OrderedDaysTile(zone, fromDate, toDate, utc);
      }
    } else if DaysBackwards(zone, fromDate, toDate) {
      BackwardDaysDescend(zone, fromDate, toDate);
    } else if forall utc :: TiledAt(zone, fromDate, toDate, utc) {
      TiledDaysRunOneWay(zone, fromDate, toDate);
    }
  }

  lemma OrderIsGain(zone: Zone, fromDate: int, toDate: int)
    ensures DaysInOrder(zone, fromDate, toDate) <==>
            (forall date | fromDate <= date <= toDate :: OffsetGain(zone, date, 1) <= DAY)
    ensures DaysBackwards(zone, fromDate, toDate) <==>
            (forall date | fromDate <= date <= toDate :: OffsetGain(zone, date, 1) >= DAY)
  {
    forall date | fromDate <= date <= toDate {
      DayStartsInOrder(zone, date, 1);
    }
    if forall date | fromDate <= date <= toDate :: OffsetGain(zone, date, 1) <= DAY {
      forall date | fromDate <= date <= toDate ensures ZonedDayStart(zone, date) <= ZonedDayStart(zone, date + 1) {
        assert OffsetGain(zone, date, 1) <= DAY;
        DayStartsInOrder(zone, date, 1);
      }
    }
    if forall date | fromDate <= date <= toDate :: OffsetGain(zone, date, 1) >= DAY {
      forall date | fromDate <= date <= toDate ensures ZonedDayStart(zone, date + 1) <= ZonedDayStart(zone, date) {
        assert OffsetGain(zone, date, 1) >= DAY;
        DayStartsInOrder(zone, date, 1);
      }
    }
  }

  /**
   * In any zone the days of a range tile it if and only if from no day to the next the offset
   * used gains more than a day, or from every day to the next a day at least.
   */
  lemma DaysTileIff(zone: Zone, fromDate: int, toDate: int)
    requires fromDate <= toDate
    ensures (forall utc :: TiledAt(zone, fromDate, toDate, utc)) <==>
            (forall date | fromDate <= date <= toDate :: OffsetGain(zone, date, 1) <= DAY)
            || (forall date | fromDate <= date <= toDate :: OffsetGain(zone, date, 1) >= DAY)
  {
    DaysTileIffOneWay(zone, fromDate, toDate);
    OrderIsGain(zone, fromDate, toDate);
  }

  // ----- adjacent ranges -------------------------------------------------------------------

  /** At this instant: the whole has it if and only if just one of two adjacent ranges does. */
  ghost predicate JoinedAt(zone: Zone, fromDate: int, mid: int, toDate: int, utc: int) {
    ZonedRange(zone, fromDate, toDate).Has(utc) <==>
    (ZonedRange(zone, fromDate, mid).Has(utc) != ZonedRange(zone, mid + 1, toDate).Has(utc))
  }

  /** Two ranges that meet at a day start have exactly the instants of the whole between them. */
  ghost predicate Join(zone: Zone, fromDate: int, mid: int, toDate: int) {
    forall utc :: JoinedAt(zone, fromDate, mid, toDate, utc)
  }

  lemma OrderedRangesJoin(zone: Zone, fromDate: int, mid: int, toDate: int)
    requires fromDate <= mid < toDate && DaysInOrder(zone, fromDate, toDate)
    ensures Join(zone, fromDate, mid, toDate)
  {
    StartsAscend(zone, fromDate, toDate, fromDate, mid + 1);
    StartsAscend(zone, fromDate, toDate, mid + 1, toDate + 1);
    RangesJoinIffMeetingBetween(zone, fromDate, mid, toDate);
  }

  /** Two adjacent report ranges join into one: nothing between them, nothing in both. */
  lemma AdjacentRangesJoin(zone: Zone, fromDate: int, mid: int, toDate: int)
    requires fromDate <= mid < toDate && NearbyOffsetsClose(zone)
    ensures Join(zone, fromDate, mid, toDate)
  {
    CloseOffsetsGiveOrder(zone, fromDate, toDate);
    OrderedRangesJoin(zone, fromDate, mid, toDate);
  }

  lemma RangesJoinIffMeetingBetween(zone: Zone, fromDate: int, mid: int, toDate: int)
    ensures var first, meet, last := ZonedDayStart(zone, fromDate), ZonedDayStart(zone, mid + 1), ZonedDayStart(zone, toDate + 1);
            Join(zone, fromDate, mid, toDate) <==> first <= meet <= last || (last <= meet <= first)
  {
    var first, meet, last := ZonedDayStart(zone, fromDate), ZonedDayStart(zone, mid + 1), ZonedDayStart(zone, toDate + 1);
    var whole, a, b := ZonedRange(zone, fromDate, toDate), ZonedRange(zone, fromDate, mid), ZonedRange(zone, mid + 1, toDate);
    if meet < first && meet < last {
      assert !whole.Has(meet) && b.Has(meet) && !a.Has(meet);
      assert !JoinedAt(zone, fromDate, mid, toDate, meet);
    } else if first < meet && last < meet {
      var utc := if first < last then last else first;
      assert a.Has(utc) && !b.Has(utc) && !whole.Has(utc);
      assert !JoinedAt(zone, fromDate, mid, toDate, utc);
    }
  }

  /**
   * In any zone two adjacent ranges join if and only if over neither the offset used gains more
   * than the range's days, or over each at least that.
   */
  lemma RangesJoinIff(zone: Zone, fromDate: int, mid: int, toDate: int)
    requires fromDate <= mid < toDate
    ensures var leftDays, rightDays := mid + 1 - fromDate, toDate - mid;
            var left, right := OffsetGain(zone, fromDate, leftDays), OffsetGain(zone, mid + 1, rightDays);
            Join(zone, fromDate, mid, toDate) <==>
            (left <= leftDays * DAY && right <= rightDays * DAY) || (left >= leftDays * DAY && right >= rightDays * DAY)
  {
    RangesJoinIffMeetingBetween(zone, fromDate, mid, toDate);
    DayStartsInOrder(zone, fromDate, mid + 1 - fromDate);
    DayStartsInOrder(zone, mid + 1, toDate - mid);
  }

  /** A zone that jumps two days ahead does have a day start that passes the next one. */
  lemma TwoDayJumpDoesNotJoin()
    ensures exists zone :: OffsetsWithinADay(zone) && !Join(zone, 0, 0, 1)
  {
    var zone := Zone(-DAY, [Change(DAY + DAY / 2, DAY)]);
    assert zone.changes[..0] == [];
    assert forall utc :: OffsetMs(zone, utc) == if DAY + DAY / 2 <= utc then DAY else -DAY;
    RangesJoinIffMeetingBetween(zone, 0, 0, 1);
  }

  // ----- zones whose changes are far apart -------------------------------------------------

  /** Consecutive changes are more than two days apart. */
  ghost predicate Sparse(zone: Zone) {
    forall i, j :: 0 <= i < j < |zone.changes| ==> zone.changes[i].at + 2 * DAY < zone.changes[j].at
  }

  /** The offset before the first change from index `n` on. */
  function OffsetBefore(zone: Zone, n: nat): int
    requires n <= |zone.changes|
  {
    if n == 0 then zone.initial else zone.changes[n - 1].offset
  }

  /** Between two neighbouring changes the offset is the earlier one's. */
  lemma {:induction false} OffsetBetween(zone: Zone, n: nat, utc: int)
    requires Sparse(zone) && n <= |zone.changes|
    requires n > 0 ==> zone.changes[n - 1].at <= utc
    requires n < |zone.changes| ==> utc < zone.changes[n].at
    ensures OffsetMs(zone, utc) == OffsetBefore(zone, n)
    decreases |zone.changes|
  {
    var m := |zone.changes|;
    if n < m {
      var shorter := Zone(zone.initial, zone.changes[..m - 1]);
      assert utc < zone.changes[m - 1].at;
      OffsetBetween(shorter, n, utc);
    }
  }

  /** In such a zone at most one change is near any midnight. */
  lemma {:induction false} SparseHasOneChangeNear(zone: Zone, date: int, n: nat) returns (at: int, before: int, after: int)
    requires Sparse(zone) && n <= |zone.changes|
    requires forall i :: n <= i < |zone.changes| ==> Midnight(date) + DAY < zone.changes[i].at
    ensures OneChangeNear(zone, date, at, before, after)
    decreases n
  {
    var lo, hi := Midnight(date) - DAY, Midnight(date) + DAY;
    if n > 0 && hi < zone.changes[n - 1].at {
      at, before, after := SparseHasOneChangeNear(zone, date, n - 1);
    } else if n > 0 && lo < zone.changes[n - 1].at {
      at, before, after := zone.changes[n - 1].at, OffsetBefore(zone, n - 1), OffsetBefore(zone, n);
      forall utc | lo <= utc <= hi ensures OffsetMs(zone, utc) == if utc < at then before else after {
        OffsetBetween(zone, if utc < at then n - 1 else n, utc);
      }
    } else {
      at, before, after := lo, OffsetBefore(zone, n), OffsetBefore(zone, n);
      forall utc | lo <= utc <= hi ensures OffsetMs(zone, utc) == before {
        OffsetBetween(zone, n, utc);
      }
    }
  }

  /**
   * So for every zone with changes more than two days apart and offsets within a day, the day
   * start shows its midnight whenever that midnight happens at all.
   */
  lemma SparseZoneDayStart(zone: Zone, date: int)
    requires Sparse(zone) && OffsetsWithinADay(zone)
    ensures Local(zone, ZonedDayStart(zone, date)) == Midnight(date) <==> MidnightHappens(zone, date)
  {
    var at, before, after := SparseHasOneChangeNear(zone, date, |zone.changes|);
    DayStartShowsMidnight(zone, date, at, before, after);
  }

  /** The instant comes after just this many changes. */
  predicate ComesAfter(zone: Zone, n: nat, utc: int) {
    n <= |zone.changes| && (n > 0 ==> zone.changes[n - 1].at <= utc) && (n < |zone.changes| ==> utc < zone.changes[n].at)
  }

  lemma {:induction false} ChangesBefore(zone: Zone, utc: int, n: nat) returns (k: nat)
    requires n <= |zone.changes|
    requires forall i :: n <= i < |zone.changes| ==> utc < zone.changes[i].at
    ensures ComesAfter(zone, k, utc)
    decreases n
  {
    if n > 0 && utc < zone.changes[n - 1].at {
      k := ChangesBefore(zone, utc, n - 1);
    } else {
      k := n;
    }
  }

  lemma TwoDaysHoldOneChange(zone: Zone, k: nat, v: int, l: nat, u: int)
    requires Sparse(zone) && ComesAfter(zone, k, v) && ComesAfter(zone, l, u) && v <= u <= v + 2 * DAY
    ensures l == k || l == k + 1
  {
  }

  /** No change moves the clock by more than a day. */
  predicate ChangesADayAtMost(zone: Zone) {
    forall n :: 0 <= n < |zone.changes| ==> -DAY <= zone.changes[n].offset - OffsetBefore(zone, n) <= DAY
  }

  lemma NearbyInstants(zone: Zone, v: int, u: int)
    requires Sparse(zone) && ChangesADayAtMost(zone) && v <= u <= v + 2 * DAY
    ensures -DAY <= OffsetMs(zone, u) - OffsetMs(zone, v) <= DAY
  {
    var k := ChangesBefore(zone, v, |zone.changes|);
    var l := ChangesBefore(zone, u, |zone.changes|);
    OffsetBetween(zone, k, v);
    OffsetBetween(zone, l, u);
    TwoDaysHoldOneChange(zone, k, v, l, u);
  }

  /** In such a zone nearby offsets are close exactly when no change moves the clock by more than a day. */
  lemma SparseZoneIsClose(zone: Zone)
    requires Sparse(zone)
    ensures NearbyOffsetsClose(zone) <==> ChangesADayAtMost(zone)
  {
    if ChangesADayAtMost(zone) {
      forall u, v | -2 * DAY <= u - v <= 2 * DAY ensures OffsetMs(zone, u) - OffsetMs(zone, v) <= DAY {
        if v <= u {
          NearbyInstants(zone, v, u);
        } else {
          NearbyInstants(zone, u, v);
        }
      }
    }
    if NearbyOffsetsClose(zone) {
      forall n | 0 <= n < |zone.changes| ensures -DAY <= zone.changes[n].offset - OffsetBefore(zone, n) <= DAY {
        var u := zone.changes[n].at;
        OffsetBetween(zone, n, u - 1);
        OffsetBetween(zone, n + 1, u);
        assert OffsetMs(zone, u) - OffsetMs(zone, u - 1) <= DAY && OffsetMs(zone, u - 1) - OffsetMs(zone, u) <= DAY;
      }
    }
  }
}
