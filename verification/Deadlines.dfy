/**
 * The two deadlines of section 17 HinSchG (app/services/deadlines.py), and the
 * dashboard's own count of them (app/services/report.py).
 */
module Deadlines {
  import opened Options
  import opened Calendar

  const ACK_DAYS := 7
  const FEEDBACK_MONTHS := 3
  const ACK_WARN_FROM_DAY := 5
  const FEEDBACK_WARN_DAYS := 14

  datatype State = Done | Fine | Warning | Overdue
  datatype Deadline = Deadline(state: State, due: Moment, days: int)

  function EndOfDay(m: Moment): Moment { Stamp(m.date, DAY - 1) }

  function Min(a: Moment, b: Moment): Moment { if Before(b, a) then b else a }

  // The whole days in a time difference, as timedelta.days counts them.
  function Days(micros: int): int { micros / DAY }

  function AckDue(submitted: Moment): Moment { EndOfDay(Plus(submitted, ACK_DAYS)) }

  function FeedbackDue(submitted: Moment, acknowledged: Option<Moment>): Moment {
    var withoutAck := EndOfDay(Plus(AddMonths(submitted, FEEDBACK_MONTHS), ACK_DAYS));
    if acknowledged.None? then withoutAck
    else Min(EndOfDay(AddMonths(acknowledged.value, FEEDBACK_MONTHS)), withoutAck)
  }

  predicate AckOnTime(submitted: Moment, acknowledged: Option<Moment>) {
    acknowledged.Some? && NotAfter(acknowledged.value, AckDue(submitted))
  }

  function AckStatus(submitted: Moment, acknowledged: Option<Moment>, now: Moment): Deadline {
    var due, day := AckDue(submitted), Days(Instant(now) - Instant(submitted));
    if acknowledged.Some? then Deadline(Done, due, day)
    else if Before(due, now) then Deadline(Overdue, due, day)
    else Deadline(if day >= ACK_WARN_FROM_DAY then Warning else Fine, due, day)
  }

  function FeedbackStatus(due: Option<Moment>, sent: Option<Moment>, now: Moment): Option<Deadline> {
    if due.None? then None
    else
      var left := Days(Instant(due.value) - Instant(now));
      if sent.Some? then Some(Deadline(Done, due.value, left))
      else if Before(due.value, now) then Some(Deadline(Overdue, due.value, left))
      else Some(Deadline(if left <= FEEDBACK_WARN_DAYS then Warning else Fine, due.value, left))
  }

  // ── The deadlines ─────────────────────────────────────────────────

  // The seventh day after receipt, to its last microsecond.
  lemma AckDueInstant(submitted: Moment)
    ensures Instant(AckDue(submitted)) == Instant(submitted) - submitted.micros + 8 * DAY - 1
  {
    PlusDaysOrdinal(submitted.date, ACK_DAYS);
    hide Ordinal;
  }

  // The last microsecond of a day, by its number.
  predicate EndsDay(m: Moment, ordinal: int) { Instant(m) == ordinal * 86_400_000_000 + 86_399_999_999 }

  // Section 17(2) HinSchG: feedback is due by the end of the day three months
  // after the acknowledgement, and in any case by that of the seventh day after
  // the day three months after the receipt.
  lemma FeedbackDueIs(submitted: Moment, a: Moment)
    ensures EndsDay(FeedbackDue(submitted, None), Ordinal(AddMonths(submitted, 3).date) + 7)
    ensures var due := FeedbackDue(submitted, Some(a));
            && (EndsDay(due, Ordinal(AddMonths(a, 3).date)) || due == FeedbackDue(submitted, None))
            && Instant(due) < (Ordinal(AddMonths(a, 3).date) + 1) * 86_400_000_000
            && Instant(due) <= Instant(FeedbackDue(submitted, None))
  {
    var limit, mine := FeedbackDue(submitted, None), EndOfDay(AddMonths(a, 3));
    PlusDaysOrdinal(AddMonthsToDate(submitted.date, 3), 7);
    InstantOrder(limit, mine);
    hide Ordinal, AddMonthsToDate, PlusDays, Before;
  }

  lemma PlusDaysMonotone(a: Date, b: Date, n: int)
    requires !Earlier(b, a)
    ensures !Earlier(PlusDays(b, n), PlusDays(a, n))
  {
    PlusDaysOrdinal(a, n);
    PlusDaysOrdinal(b, n);
    OrdinalOrder(b, a);
    OrdinalOrder(PlusDays(b, n), PlusDays(a, n));
  }

  // A later receipt never has an earlier feedback deadline, with the same
  // acknowledgement or without one.
  lemma FeedbackDueMonotone(a: Moment, b: Moment, acknowledged: Option<Moment>)
    requires NotAfter(a, b)
    ensures NotAfter(FeedbackDue(a, acknowledged), FeedbackDue(b, acknowledged))
  {
    AddMonthsToDateMonotone(a.date, b.date, FEEDBACK_MONTHS);
    PlusDaysMonotone(AddMonthsToDate(a.date, FEEDBACK_MONTHS), AddMonthsToDate(b.date, FEEDBACK_MONTHS), ACK_DAYS);
    hide PlusDays, AddMonthsToDate;
  }

  // An acknowledgement never moves the feedback deadline later; a later one
  // leaves it no earlier.
  lemma AcknowledgingNeverMovesItLater(submitted: Moment, a: Moment, b: Moment)
    requires NotAfter(a, b)
    ensures NotAfter(FeedbackDue(submitted, Some(a)), FeedbackDue(submitted, Some(b)))
    ensures NotAfter(FeedbackDue(submitted, Some(b)), FeedbackDue(submitted, None))
  {
    AddMonthsToDateMonotone(a.date, b.date, FEEDBACK_MONTHS);
    hide PlusDays, AddMonthsToDate;
  }

  // What the case page says of the acknowledgement: done once there is one; else
  // overdue after the seventh day, a warning from the fifth full day on.
  lemma AckStatusIs(submitted: Moment, acknowledged: Option<Moment>, now: Moment)
    ensures var d, since := AckStatus(submitted, acknowledged, now), Instant(now) - Instant(submitted);
            && EndsDay(d.due, Ordinal(submitted.date) + 7)
            && d.days * 86_400_000_000 <= since < (d.days + 1) * 86_400_000_000
            && (d.state == Done <==> acknowledged.Some?)
            && (d.state == Overdue <==> acknowledged.None? && Instant(d.due) < Instant(now))
            && (d.state == Warning <==> acknowledged.None? && Instant(now) <= Instant(d.due) && 5 * 86_400_000_000 <= since)
  {
    AckDueInstant(submitted);
    InstantOrder(AckDue(submitted), now);
    hide Ordinal, PlusDays, Before;
  }

  // On time is by the end of the seventh day.
  lemma AckOnTimeIs(submitted: Moment, acknowledged: Option<Moment>)
    ensures AckOnTime(submitted, acknowledged) <==>
            acknowledged.Some? && Instant(acknowledged.value) < Instant(submitted) - submitted.micros + 8 * 86_400_000_000
  {
    AckDueInstant(submitted);
    if acknowledged.Some? {
      InstantOrder(AckDue(submitted), acknowledged.value);
    }
    hide Instant, AckDue, Before;
  }

  // And of the feedback: no deadline, done once it is given, overdue after the
  // deadline, a warning from fifteen days before it.
  lemma FeedbackStatusIs(due: Option<Moment>, sent: Option<Moment>, now: Moment)
    ensures FeedbackStatus(due, sent, now).None? <==> due.None?
    ensures due.Some? ==>
              var d, left := FeedbackStatus(due, sent, now).value, Instant(due.value) - Instant(now);
              && d.due == due.value
              && d.days * 86_400_000_000 <= left < (d.days + 1) * 86_400_000_000
              && (d.state == Done <==> sent.Some?)
              && (d.state == Overdue <==> sent.None? && left < 0)
              && (d.state == Warning <==> sent.None? && 0 <= left < 15 * 86_400_000_000)
  {
    if due.Some? {
      InstantOrder(due.value, now);
    }
    hide Instant, Before;
  }

  function Rank(s: State): nat { match s case Done => 3 case Fine => 0 case Warning => 1 case Overdue => 2 }

  lemma DaysMonotone(x: int, y: int)
    requires x <= y
    ensures Days(x) <= Days(y)
  {
  }

  // Until the acknowledgement the state only moves on, from fine through
  // warning to overdue; the day is at most the seventh until overdue, and at
  // least the seventh then.
  lemma AckStateMovesOn(submitted: Moment, now: Moment, later: Moment)
    requires NotAfter(now, later)
    ensures Rank(AckStatus(submitted, None, now).state) <= Rank(AckStatus(submitted, None, later).state)
    ensures AckStatus(submitted, None, now).state.Overdue? ==> AckStatus(submitted, None, now).days >= ACK_DAYS
    ensures !AckStatus(submitted, None, now).state.Overdue? ==> AckStatus(submitted, None, now).days <= ACK_DAYS
  {
    AckDueInstant(submitted);
    InstantOrder(AckDue(submitted), now);
    InstantOrder(AckDue(submitted), later);
    InstantOrder(later, now);
    hide Instant, AckDue, Before;
    DaysMonotone(Instant(now) - Instant(submitted), Instant(later) - Instant(submitted));
  }

  // Until it is given, the feedback state only moves on; nothing is left
  // of the days exactly when it is overdue.
  lemma FeedbackStateMovesOn(due: Moment, now: Moment, later: Moment)
    requires NotAfter(now, later)
    ensures Rank(FeedbackStatus(Some(due), None, now).value.state) <= Rank(FeedbackStatus(Some(due), None, later).value.state)
    ensures FeedbackStatus(Some(due), None, now).value.days < 0 <==> FeedbackStatus(Some(due), None, now).value.state.Overdue?
  {
    InstantOrder(due, now);
    InstantOrder(due, later);
    InstantOrder(later, now);
    hide Instant, Before;
    DaysMonotone(Instant(due) - Instant(later), Instant(due) - Instant(now));
  }

  // ── The dashboard ─────────────────────────────────────────────────

  predicate DashboardDecided(submitted: Moment, acknowledged: Option<Moment>, now: Moment) {
    acknowledged.Some? || Instant(submitted) + (ACK_DAYS + 1) * DAY <= Instant(now)
  }

  predicate DashboardOnTime(submitted: Moment, acknowledged: Option<Moment>) {
    acknowledged.Some? && Instant(acknowledged.value) < Instant(submitted) + (ACK_DAYS + 1) * DAY
  }

  // For a receipt stored as its day the dashboard counts as the case page does.
  lemma DashboardAgrees(submitted: Moment, acknowledged: Option<Moment>, now: Moment)
    requires submitted.micros == 0
    ensures DashboardDecided(submitted, acknowledged, now) <==> AckStatus(submitted, acknowledged, now).state in {Done, Overdue}
    ensures DashboardOnTime(submitted, acknowledged) <==> AckOnTime(submitted, acknowledged)
  {
    AckDueInstant(submitted);
    InstantOrder(AckDue(submitted), now);
    if acknowledged.Some? {
      InstantOrder(AckDue(submitted), acknowledged.value);
    }
    hide Instant, AckDue, Before;
  }

  // And for no other: one stored with a time of day is counted otherwise by
  // the two at the midnight after its seventh day.
  lemma DashboardAgreesIff(submitted: Moment)
    ensures (forall now :: DashboardDecided(submitted, None, now) <==> AckStatus(submitted, None, now).state.Overdue?)
            <==> submitted.micros == 0
    ensures (forall at: Moment :: DashboardOnTime(submitted, Some(at)) <==> AckOnTime(submitted, Some(at)))
            <==> submitted.micros == 0
  {
    if submitted.micros == 0 {
      forall now: Moment ensures DashboardDecided(submitted, None, now) <==> AckStatus(submitted, None, now).state.Overdue? {
        DashboardAgrees(submitted, None, now);
        assert !AckStatus(submitted, None, now).state.Done?;
      }
      forall at: Moment ensures DashboardOnTime(submitted, Some(at)) <==> AckOnTime(submitted, Some(at)) {
        DashboardAgrees(submitted, Some(at), at);
      }
    } else {
      var midnight: Moment := Stamp(PlusDays(submitted.date, ACK_DAYS + 1), 0);
      PlusDaysOrdinal(submitted.date, ACK_DAYS + 1);
      AckDueInstant(submitted);
      InstantOrder(AckDue(submitted), midnight);
      assert Instant(midnight) == Instant(submitted) - submitted.micros + 8 * DAY by { hide Ordinal; }
      hide Instant, AckDue, Before;
      assert !DashboardDecided(submitted, None, midnight) && AckStatus(submitted, None, midnight).state.Overdue?;
      assert DashboardOnTime(submitted, Some(midnight)) && !AckOnTime(submitted, Some(midnight));
    }
  }
}
