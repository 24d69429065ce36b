/**
 * How long a closed report is kept (app/services/retention.py): whole years of
 * RETENTION_DAYS are calendar years.
 */
module Retention {
  import opened Calendar

  function Years(days: nat): int { days / 365 }
  function Rest(days: nat): int { days % 365 }

  // Reports closed before this are past `days` of retention.
  function Cutoff(now: Moment, days: nat): Moment {
    Plus(AddMonths(now, -12 * Years(days)), -Rest(days))
  }

  predicate Eligible(closed: Moment, now: Moment, days: nat) { Before(closed, Cutoff(now, days)) }

  // When the retention period of a report ends: the remaining days, then the
  // whole calendar years.
  function KeepUntil(closed: Moment, days: nat): Moment {
    AddMonths(Plus(closed, Rest(days)), 12 * Years(days))
  }

  lemma PlusMovesAcross(a: Moment, b: Moment, days: int)
    ensures Before(a, Plus(b, -days)) <==> Before(Plus(a, days), b)
  {
    PlusInstant(a, days);
    PlusInstant(b, -days);
    InstantOrder(a, Plus(b, -days));
    InstantOrder(Plus(a, days), b);
    hide Instant, Plus, Before;
  }

  // Back by whole years and forward again: the order survives.
  lemma YearsAcross(a: Moment, b: Moment, years: int)
    requires Before(a, AddMonths(b, -12 * years))
    ensures NotAfter(AddMonths(a, 12 * years), b)
  {
    YearTarget(b.date, -years);
    YearTarget(a.date, years);
  }

  lemma YearTarget(d: Date, years: int)
    ensures Target(d, 12 * years) == (d.year + years, d.month)
  {
    assert (d.month - 1 + 12 * years) / 12 == years;
  }

  // No report is deleted before its period ends.
  lemma NeverDeletedEarly(closed: Moment, now: Moment, days: nat)
    requires Eligible(closed, now, days)
    ensures NotAfter(KeepUntil(closed, days), now)
  {
    PlusMovesAcross(closed, AddMonths(now, -12 * Years(days)), Rest(days));
    YearsAcross(Plus(closed, Rest(days)), now, Years(days));
  }

  // The default of 1095 days is three calendar years.
  lemma ThreeYears(closed: Moment, now: Moment)
    requires Eligible(closed, now, 1095)
    ensures NotAfter(AddMonths(closed, 36), now)
  {
    NeverDeletedEarly(closed, now, 1095);
    assert Years(1095) == 3 && Rest(1095) == 0 && Plus(closed, 0) == closed;
    hide AddMonths, NotAfter, Years, Rest, Plus;
  }

  // Nor kept more than a day longer.
  lemma DeletedWithinADay(closed: Moment, now: Moment, days: nat)
    requires Before(Plus(KeepUntil(closed, days), 1), now)
    ensures Eligible(closed, now, days)
  {
    var kept := Plus(closed, Rest(days));
    YearsBack(kept, now, Years(days));
    PlusMovesAcross(closed, AddMonths(now, -12 * Years(days)), Rest(days));
  }

  lemma YearsBack(a: Moment, b: Moment, years: int)
    requires Before(Plus(AddMonths(a, 12 * years), 1), b)
    ensures Before(a, AddMonths(b, -12 * years))
  {
    YearTarget(b.date, -years);
    YearTarget(a.date, years);
    assert PlusDays(AddMonthsToDate(a.date, 12 * years), 1) == Next(AddMonthsToDate(a.date, 12 * years));
  }

  // The one way the cutoff goes back while time goes on: from 28 February to a
  // 29th with no like in the target year, at an earlier time of day.
  predicate LeapDayClash(now: Moment, later: Moment, years: int) {
    && now.date.year == later.date.year && Leap(now.date.year) && !Leap(now.date.year - years)
    && now.date.month == later.date.month == 2 && now.date.day == 28 && later.date.day == 29
    && later.micros < now.micros
  }

  lemma CollapseIsLeapDay(a: Date, b: Date, years: int)
    requires Collapses(a, b, -12 * years)
    ensures a.month == 2 && a.day == 28 && b.day == 29 && Leap(a.year) && !Leap(a.year - years)
  {
    YearTarget(a, -years);
  }

  lemma LeapDayCollapses(a: Date, b: Date, years: int)
    requires a.year == b.year && Leap(a.year) && !Leap(a.year - years)
    requires a.month == b.month == 2 && a.day == 28 && b.day == 29
    ensures Collapses(a, b, -12 * years)
  {
    YearTarget(a, -years);
  }

  lemma CutoffMonotoneIff(now: Moment, later: Moment, days: nat)
    requires NotAfter(now, later)
    ensures NotAfter(Cutoff(now, days), Cutoff(later, days)) <==> !LeapDayClash(now, later, Years(days))
  {
    var n := -12 * Years(days);
    PlusKeepsOrder(AddMonths(later, n), AddMonths(now, n), -Rest(days));
    AddMonthsKeepsOrderIff(now, later, n);
    hide Plus, AddMonths, Years, Rest;
    if Collapses(now.date, later.date, n) {
      CollapseIsLeapDay(now.date, later.date, Years(days));
    }
    if LeapDayClash(now, later, Years(days)) {
      LeapDayCollapses(now.date, later.date, Years(days));
    }
  }

  lemma PlusKeepsOrder(a: Moment, b: Moment, days: int)
    ensures Before(Plus(a, days), Plus(b, days)) <==> Before(a, b)
  {
    PlusInstant(a, days);
    PlusInstant(b, days);
    InstantOrder(a, b);
    InstantOrder(Plus(a, days), Plus(b, days));
    hide Instant, Plus, Before;
  }

  // Once eligible, a report stays so; but for that clash, and only for it.
  lemma EligibleMonotoneIff(now: Moment, later: Moment, days: nat)
    requires NotAfter(now, later)
    ensures (forall closed | Eligible(closed, now, days) :: Eligible(closed, later, days)) <==>
            !LeapDayClash(now, later, Years(days))
  {
    CutoffMonotoneIff(now, later, days);
    var a, b := Cutoff(now, days), Cutoff(later, days);
    hide Cutoff, LeapDayClash;
    if NotAfter(a, b) {
      forall closed | Eligible(closed, now, days) ensures Eligible(closed, later, days) {
        Transitive(closed, a, b);
      }
    } else {
      Irreflexive(b);
      assert Eligible(b, now, days) && !Eligible(b, later, days);
    }
  }

  lemma Transitive(x: Moment, a: Moment, b: Moment)
    requires Before(x, a) && NotAfter(a, b)
    ensures Before(x, b)
  {
  }

  lemma Irreflexive(b: Moment)
    ensures !Before(b, b)
  {
  }

  // At the same time of day or a later one a report stays eligible.
  lemma EligibleAtNoEarlierTimeOfDay(closed: Moment, now: Moment, later: Moment, days: nat)
    requires NotAfter(now, later) && now.micros <= later.micros && Eligible(closed, now, days)
    ensures Eligible(closed, later, days)
  {
    EligibleMonotoneIff(now, later, days);
  }

  // Eligibility that lapses was gained in the time of day by which the later
  // moment is earlier, and is back for good at that time of day.
  lemma LapseIsShort(closed: Moment, now: Moment, later: Moment, days: nat)
    requires NotAfter(now, later) && Eligible(closed, now, days) && !Eligible(closed, later, days)
    ensures NotAfter(Cutoff(later, days), closed) && Before(closed, Cutoff(now, days))
    ensures Instant(Cutoff(now, days)) - Instant(Cutoff(later, days)) == now.micros - later.micros
    ensures forall m | NotAfter(later, m) && (m.date != later.date || now.micros <= m.micros) :: Eligible(closed, m, days)
  {
    EligibleMonotoneIff(now, later, days);
    assert LeapDayClash(now, later, Years(days));
    LeapDayCollapses(now.date, later.date, Years(days));
    CutoffsOfOneDay(now, later, days);
    forall m | NotAfter(later, m) && (m.date != later.date || now.micros <= m.micros) ensures Eligible(closed, m, days) {
      EligibleMonotoneIff(now, m, days);
      hide Eligible, Leap;
      assert NotAfter(now, m);
    }
  }

  lemma CutoffsOfOneDay(now: Moment, later: Moment, days: nat)
    requires Collapses(now.date, later.date, -12 * Years(days))
    ensures Instant(Cutoff(now, days)) - Instant(Cutoff(later, days)) == now.micros - later.micros
  {
    var n := -12 * Years(days);
    assert AddMonthsToDate(now.date, n) == AddMonthsToDate(later.date, n);
    PlusInstant(AddMonths(now, n), -Rest(days));
    PlusInstant(AddMonths(later, n), -Rest(days));
    hide Plus, Ordinal, AddMonthsToDate;
  }

  // A report closed at noon on 28 February 2027 is past one year at 23:00 on
  // 28 February 2028 and not at 01:00 on the 29th.
  lemma EligibilityCanLapse()
    ensures var closed: Moment, now: Moment, later: Moment :=
              Stamp(Ymd(2027, 2, 28), DAY / 2), Stamp(Ymd(2028, 2, 28), 23 * (DAY / 24)), Stamp(Ymd(2028, 2, 29), DAY / 24);
            Before(now, later) && Eligible(closed, now, 365) && !Eligible(closed, later, 365)
  {
  }
}
