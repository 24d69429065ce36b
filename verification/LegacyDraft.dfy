/**
 * Drafts saved before v2.0.0 carry no report id; whoever loads one asks
 * _ASSIGN_REPORT_ID for it (app/api/reports.py). Within the time limits every
 * loader gets the same id. Without them the promise of one report per draft is
 * kept exactly by the drafts that carry an id.
 */
module LegacyDraft {
  import opened Options
  import opened DraftKeys
  import opened SubmitProtocol
  import opened SubmitSafety
  import opened SubmitTiming
  import opened SubmitRuns
  import opened SubmitLimits
  import Facts

  ghost predicate IdIs(d: Option<Draft>, y: nat) { d.Some? && d.value.id.Some? ==> d.value.id == Some(y) }

  ghost predicate RequestAgrees(r: Request, y: nat) {
    match r
    case Editing(held) => held.id == Some(y)
    case Submitting(claim, _, _, _) => IdIs(Some(claim), y)
    case Recovering(_, sight) => !sight.Checked? ==> IdIs(Some(sight.token), y)
    case Reading(raw) => raw.id.None?
    case Ended => true
  }

  // Every id anywhere is y.
  ghost predicate AllIdsAre(s: State, y: nat) {
    && IdIs(Value(s.keys.draft), y) && IdIs(Value(s.keys.claimed), y)
    && (s.keys.reportId.Some? ==> Value(s.keys.reportId) == Some(y))
    && (forall p | p in s.requests :: RequestAgrees(s.requests[p], y))
    && (forall p | p in s.txs :: s.txs[p].id == y)
    && (forall id | id in s.rows :: id == y)
  }

  // No copy without an id is left where a later load could find it.
  ghost predicate NoneWithoutId(s: State) {
    && (s.keys.draft.Some? ==> s.keys.draft.value.value.id.Some?)
    && (s.keys.claimed.Some? ==> s.keys.claimed.value.value.id.Some?)
  }

  // No id has been handed out: any y agrees with them all.
  ghost predicate NoneGiven(s: State) {
    s.keys.reportId.None? && forall y: nat :: AllIdsAre(s, y)
  }

  ghost predicate Agreed(s: State, y: nat) {
    AllIdsAre(s, y) && (s.keys.reportId.Some? || NoneWithoutId(s))
  }

  lemma RequestsStayAgreed(s: State, a: Step, y: nat, p: nat)
    requires Truthful(s) && Agreed(s, y) && Enabled(s, a) && p in Apply(s, a).requests
    ensures RequestAgrees(Apply(s, a).requests[p], y)
  {
    hide Apply, Enabled, Truthful;
    if Mover(a) != Some(p) {
      OthersStay(s, a, p);
      assert RequestAgrees(s.requests[p], y);
    } else if BeforeCommit(a) {
      MoverBeforeCommit(s, a, y, p);
    } else {
      MoverAfterCommit(s, a, y, p);
    }
  }

  lemma MoverBeforeCommit(s: State, a: Step, y: nat, p: nat)
    requires Truthful(s) && Agreed(s, y) && Enabled(s, a) && BeforeCommit(a) && a.p == p && p in Apply(s, a).requests
    ensures RequestAgrees(Apply(s, a).requests[p], y)
  {
    hide InsertFree, Finished;
    assert p in s.requests ==> RequestAgrees(s.requests[p], y) && TruthfulRequest(s, p, s.requests[p]);
  }

  lemma MoverAfterCommit(s: State, a: Step, y: nat, p: nat)
    requires Truthful(s) && Agreed(s, y) && Enabled(s, a) && !BeforeCommit(a) && Mover(a) == Some(p)
    requires p in Apply(s, a).requests
    ensures RequestAgrees(Apply(s, a).requests[p], y)
  {
    hide InsertFree, Finished;
    assert p in s.requests ==> RequestAgrees(s.requests[p], y) && TruthfulRequest(s, p, s.requests[p]);
  }

  lemma CopiesStayAgreed(s: State, a: Step, y: nat)
    requires Agreed(s, y) && Enabled(s, a)
    ensures var t := Apply(s, a); IdIs(Value(t.keys.draft), y) && IdIs(Value(t.keys.claimed), y)
  {
    hide Apply, Enabled, Agreed, IdIs;
    if BeforeCommit(a) {
      CopiesBeforeCommit(s, a, y);
    } else {
      CopiesAfterCommit(s, a, y);
    }
  }

  lemma CopiesBeforeCommit(s: State, a: Step, y: nat)
    requires Agreed(s, y) && Enabled(s, a) && BeforeCommit(a)
    ensures var t := Apply(s, a); IdIs(Value(t.keys.draft), y) && IdIs(Value(t.keys.claimed), y)
  {
    hide InsertFree, NoneWithoutId;
    if a.p in s.requests {
      assert RequestAgrees(s.requests[a.p], y);
    }
    hide AllIdsAre;
  }

  lemma CopiesAfterCommit(s: State, a: Step, y: nat)
    requires Agreed(s, y) && Enabled(s, a) && !BeforeCommit(a)
    ensures var t := Apply(s, a); IdIs(Value(t.keys.draft), y) && IdIs(Value(t.keys.claimed), y)
  {
    hide InsertFree, NoneWithoutId;
    if Mover(a).Some? && a.p in s.requests {
      assert RequestAgrees(s.requests[a.p], y);
    }
    hide AllIdsAre;
  }

  lemma ReportIdStaysAgreed(l: Limits, s: State, a: Step, y: nat)
    requires Exclusive(l, s) && Truthful(s) && Agreed(s, y) && Enabled(s, a) && KeepsReportId(a)
    ensures var t := Apply(s, a);
            && (t.keys.reportId.Some? ==> Value(t.keys.reportId) == Some(y))
            && (t.keys.reportId.Some? || NoneWithoutId(t))
  {
    hide Apply, Enabled, Exclusive, Agreed, Truthful;
    if BeforeCommit(a) {
      ReportIdBeforeCommit(l, s, a, y);
    } else {
      ReportIdAfterCommit(s, a, y);
    }
  }

  lemma ReportIdBeforeCommit(l: Limits, s: State, a: Step, y: nat)
    requires Exclusive(l, s) && Truthful(s) && Agreed(s, y) && Enabled(s, a) && BeforeCommit(a)
    ensures var t := Apply(s, a);
            && (t.keys.reportId.Some? ==> Value(t.keys.reportId) == Some(y))
            && (t.keys.reportId.Some? || NoneWithoutId(t))
  {
    if a.Refuse? {
      assert Works(s, a.p);
    }
    if a.p in s.requests {
      assert RequestAgrees(s.requests[a.p], y);
    }
    hide InsertFree, AllIdsAre, Exclusive, Truthful;
  }

  lemma ReportIdAfterCommit(s: State, a: Step, y: nat)
    requires Truthful(s) && Agreed(s, y) && Enabled(s, a) && KeepsReportId(a) && !BeforeCommit(a)
    ensures var t := Apply(s, a);
            && (t.keys.reportId.Some? ==> Value(t.keys.reportId) == Some(y))
            && (t.keys.reportId.Some? || NoneWithoutId(t))
  {
    if a.GiveBack? {
      assert TruthfulRequest(s, a.p, s.requests[a.p]);
    }
    hide Truthful;
    if Mover(a).Some? && a.p in s.requests {
      assert RequestAgrees(s.requests[a.p], y);
    }
    hide InsertFree, AllIdsAre;
  }

  lemma TablesStayAgreed(s: State, a: Step, y: nat)
    requires Agreed(s, y) && Enabled(s, a)
    ensures var t := Apply(s, a);
            && (forall p | p in t.txs :: t.txs[p].id == y)
            && (forall id | id in t.rows :: id == y)
  {
    hide Assigned, GivenBack, Claimed, Recovered, Finished, NoneWithoutId;
    var t := Apply(s, a);
    forall p | p in t.txs ensures t.txs[p].id == y {
      if Mover(a) != Some(p) {
        OthersStay(s, a, p);
      } else if a.Insert? {
        assert RequestAgrees(s.requests[p], y);
      } else {
        assert p in s.txs && t.txs[p].id == s.txs[p].id;
      }
    }
    if !a.Land? {
      RowsChangeByLanding(s, a);
    }
  }

  lemma StaysAgreed(l: Limits, s: State, a: Step, y: nat)
    requires SubmitFits(l) && l.keepsReportId && Truthful(s) && Exclusive(l, s) && Agreed(s, y) && Timed(l, s, a)
    ensures Agreed(Apply(s, a), y)
  {
    hide Apply, Truthful, Exclusive, NoneWithoutId;
    CopiesStayAgreed(s, a, y);
    ReportIdStaysAgreed(l, s, a, y);
    TablesStayAgreed(s, a, y);
    forall p | p in Apply(s, a).requests ensures RequestAgrees(Apply(s, a).requests[p], y) {
      RequestsStayAgreed(s, a, y, p);
    }
  }

  lemma RequestsHaveNone(s: State, a: Step, y: nat, p: nat)
    requires Truthful(s) && NoneGiven(s) && Enabled(s, a) && !(a.Assign? && Apply(s, a).keys.reportId.Some?)
    requires p in Apply(s, a).requests
    ensures RequestAgrees(Apply(s, a).requests[p], y)
  {
    hide InsertFree, Recovered, Finished;
    assert AllIdsAre(s, y) && AllIdsAre(s, y + 1);
    if p in s.requests {
      assert RequestAgrees(s.requests[p], y) && RequestAgrees(s.requests[p], y + 1);
      assert TruthfulRequest(s, p, s.requests[p]);
    }
    hide Truthful;
  }

  lemma GivesTheFirstId(s: State, a: Step)
    requires NoneGiven(s) && Enabled(s, a) && a.Assign? && Apply(s, a).keys.reportId.Some?
    ensures Agreed(Apply(s, a), a.newId)
  {
    assert AllIdsAre(s, a.newId);
    assert AllIdsAre(Apply(s, a), a.newId);
  }

  // The first id handed out is the one all agree on from then.
  lemma FirstIdIsAgreed(l: Limits, s: State, a: Step)
    requires Truthful(s) && NoneGiven(s) && Timed(l, s, a) && l.keepsReportId
    ensures NoneGiven(Apply(s, a)) || (a.Assign? && Agreed(Apply(s, a), a.newId))
  {
    hide Punctual, KeysInTime, InsertFree;
    var t := Apply(s, a);
    if a.Assign? && t.keys.reportId.Some? {
      GivesTheFirstId(s, a);
    } else {
      forall y: nat ensures AllIdsAre(t, y) {
        assert AllIdsAre(s, y) && AllIdsAre(s, y + 1);
        forall p | p in t.requests ensures RequestAgrees(t.requests[p], y) {
          RequestsHaveNone(s, a, y, p);
        }
        hide Truthful, RequestAgrees;
      }
    }
  }

  lemma {:induction false} RunStaysAgreed(l: Limits, s: State, steps: seq<Step>, y: nat)
    requires SubmitFits(l) && l.keepsReportId && Truthful(s) && Exclusive(l, s) && Agreed(s, y) && TimedRun(l, s, steps)
    ensures Run(s, steps) && AllIdsAre(End(s, steps), y)
    decreases |steps|
  {
    if steps != [] {
      StaysTruthful(s, steps[0]);
      StaysExclusive(l, s, steps[0]);
      StaysAgreed(l, s, steps[0], y);
      RunStaysAgreed(l, Apply(s, steps[0]), steps[1..], y);
    }
  }

  lemma {:induction false} RunAgreesOnFirstId(l: Limits, s: State, steps: seq<Step>) returns (y: nat)
    requires SubmitFits(l) && l.keepsReportId && Truthful(s) && Exclusive(l, s) && NoneGiven(s) && TimedRun(l, s, steps)
    ensures Run(s, steps) && AllIdsAre(End(s, steps), y)
    decreases |steps|
  {
    y := 0;
    if steps != [] {
      StaysTruthful(s, steps[0]);
      StaysExclusive(l, s, steps[0]);
      FirstIdIsAgreed(l, s, steps[0]);
      if NoneGiven(Apply(s, steps[0])) {
        y := RunAgreesOnFirstId(l, Apply(s, steps[0]), steps[1..]);
      } else {
        y := steps[0].newId;
        RunStaysAgreed(l, Apply(s, steps[0]), steps[1..], y);
      }
    }
  }

  // An old draft, too, yields at most one report if its submits end before
  // their claims' keys go and its report-id key stays.
  lemma AtMostOneReportInTime(l: Limits, body: nat, steps: seq<Step>)
    requires SubmitFits(l) && l.keepsReportId && TimedRun(l, Initial(Draft(None, body)), steps)
    ensures Run(Initial(Draft(None, body)), steps)
    ensures |End(Initial(Draft(None, body)), steps).rows| <= 1
  {
    var y := RunAgreesOnFirstId(l, Initial(Draft(None, body)), steps);
    var s := End(Initial(Draft(None, body)), steps);
    OneKey(s.rows, y);
  }

  lemma OneKey(m: map<nat, nat>, y: nat)
    requires forall id | id in m :: id == y
    ensures |m| <= 1
  {
    assert m.Keys <= {y};
    Facts.SubsetSize(m.Keys, {y});
  }

  // A claim on an old draft, refused after the draft was spent, gives it back
  // without its id, which went with it: there is a second id, a second report.
  lemma TwoReports(l: Limits, body: nat) returns (s: State)
    requires !SubmitFits(l)
    ensures Reached(l, Initial(Draft(None, body)), s) && s.rows == map[1 := 100, 2 := 200]
  {
    hide Reached, Punctual;
    var d := Draft(None, body);
    var s0 := Initial(d);
    var s1 := Overtaken(l, d, 1, AtWork);
    var s2 := Commit(l, s0, s1, 3, 1, 100);
    assert s2.requests[0] == s1.requests[0];
    RefuseRestores(l, s0, s2, 0);
    s := SecondReport(l, s0, AfterRefusal(s2, 0));
  }

  function AfterRefusal(s: State, p: nat): State
    requires In(s, p, Validating)
  {
    s.(keys := s.keys.(draft := Some(Entry(s.requests[p].claim, s.now + SUBMISSION_TTL)), claimed := None, pending := None),
       requests := s.requests[p := Ended])
  }

  // A refused claim gives a draft without an id back where there is none.
  lemma RefuseRestores(l: Limits, s0: State, s: State, p: nat)
    requires Reached(l, s0, s) && Ready(l, s) && In(s, p, Validating) && s.requests[p].claim.id.None?
    requires s.keys.draft.None? && !HeldByAnother(s.keys, p) && p !in s.txs
    ensures Reached(l, s0, AfterRefusal(s, p)) && Ready(l, AfterRefusal(s, p))
  {
    hide Reached, Punctual;
    StaysReady(l, s0, s, Refuse(p), p, AfterRefusal(s, p));
  }

  // A page gives the draft the id 2 and saves it; a claim commits its report.
  lemma SecondReport(l: Limits, s0: State, s: State) returns (t: State)
    requires Reached(l, s0, s) && Ready(l, s) && s.rows == map[1 := 100] && s.keys.claimed.None?
    requires s.keys.draft.Some? && s.keys.draft.value.value.id.None? && s.keys.reportId.None?
    requires forall p | p >= 4 :: p !in s.requests && p !in s.txs
    requires forall p | p in s.txs :: s.txs[p].state.Landed?
    ensures Reached(l, s0, t) && Ready(l, t) && t.rows == map[1 := 100, 2 := 200]
  {
    hide Reached, Punctual;
    Opens(l, s0, s, 4, 2);
    var s1 := AfterOpening(s, 4, 2);
    Saves(l, s0, s1, 4);
    t := Commit(l, s0, AfterSaving(s1, s1.requests[4].held), 5, 2, 200);
  }

  // The reporter starts anew while a claim on the old draft is refused: the
  // draft comes back, its report-id key does not, and a page that loads it has
  // another id than one that did before. However prompt everyone is, each
  // saves its own.
  lemma TwoReportsAfterARestart(l: Limits, body: nat) returns (s: State)
    requires !l.keepsReportId
    ensures Reached(l, Initial(Draft(None, body)), s) && s.rows == map[1 := 100, 2 := 200]
  {
    hide Reached, Punctual;
    var d := Draft(None, body);
    var s0 := Initial(d);
    Start(l, s0);
    StartsReady(l, d);
    Opens(l, s0, s0, 0, 1);
    var s1 := AfterOpening(s0, 0, 1);
    ClaimIt(l, s0, s1, 2);
    var s2 := AfterClaim(s1, 2);
    Restarts(l, s0, s2);
    var s3 := s2.(keys := s2.keys.(draft := None, reportId := None));
    RefuseRestores(l, s0, s3, 2);
    s := BothSave(l, s0, AfterRefusal(s3, 2), 0, body);
  }

  // The key expires: a refusal has made the draft outlive it, and a page loads
  // the draft on either side of its end.
  lemma TwoReportsOnceTheIdExpires(l: Limits, body: nat) returns (s: State)
    requires !l.keepsReportId && l.life < SUBMISSION_TTL
    ensures Reached(l, Initial(Draft(None, body)), s) && s.rows == map[1 := 100, 2 := 200]
  {
    hide Reached, Punctual;
    var s0 := Initial(Draft(None, body));
    var s1 := Outlived(l, body);
    NobodyWaits(l, s1, SUBMISSION_TTL - 2);
    Wait(l, s0, s1, SUBMISSION_TTL - 2);
    var s2 := s1.(now := SUBMISSION_TTL - 1);
    Opens(l, s0, s2, 1, 1);
    var s3 := AfterOpening(s2, 1, 1);
    NobodyWaits(l, s3, 1);
    Wait(l, s0, s3, 1);
    var s4 := s3.(now := SUBMISSION_TTL);
    Goes(l, s0, s4, ReportIdKey);
    s := BothSave(l, s0, s4.(keys := s4.keys.(reportId := None)), 1, body);
  }

  lemma Outlived(l: Limits, body: nat) returns (s: State)
    requires l.life < SUBMISSION_TTL
    ensures Reached(l, Initial(Draft(None, body)), s) && Ready(l, s)
    ensures s == State(1, Keys(Some(Entry(Draft(None, body), 1 + SUBMISSION_TTL)), None, None, None, Some(Entry(1, SUBMISSION_TTL))),
                       map[], map[], map[0 := Editing(Draft(Some(1), body)), 2 := Ended])
  {
    hide Reached, Punctual;
    var d := Draft(None, body);
    var s0 := Initial(d);
    Start(l, s0);
    StartsReady(l, d);
    Opens(l, s0, s0, 0, 1);
    var s1 := AfterOpening(s0, 0, 1);
    NobodyWaits(l, s1, 1);
    Wait(l, s0, s1, 1);
    var s2 := s1.(now := 1);
    ClaimIt(l, s0, s2, 2);
    var s3 := AfterClaim(s2, 2);
    RefuseRestores(l, s0, s3, 2);
    s := AfterRefusal(s3, 2);
    assert s.requests == map[0 := Editing(Draft(Some(1), body)), 2 := Ended];
  }

  lemma NobodyWaits(l: Limits, s: State, seconds: nat)
    requires s.txs == map[] && forall p | p in s.requests :: s.requests[p].Editing? || s.requests[p].Ended?
    ensures Punctual(l, s.(now := s.now + seconds))
  {
  }

  lemma Restarts(l: Limits, s0: State, s: State)
    requires Reached(l, s0, s) && Ready(l, s) && !l.keepsReportId
    ensures var t := s.(keys := s.keys.(draft := None, reportId := None)); Reached(l, s0, t) && Ready(l, t)
  {
    hide Reached;
    assert Apply(s, Restart) == s.(keys := s.keys.(draft := None, reportId := None));
    assert Punctual(l, Apply(s, Restart));
    hide Punctual;
    Then(l, s0, s, Restart);
  }

  // One page holds the draft with the id 1, the next is given 2; each saves it
  // and has its report committed.
  lemma BothSave(l: Limits, s0: State, s: State, p: nat, body: nat) returns (t: State)
    requires Reached(l, s0, s) && Ready(l, s) && s.rows == map[] && s.txs == map[]
    requires Value(s.keys.draft) == Some(Draft(None, body)) && s.keys.(draft := None) == Keys(None, None, None, None, None)
    requires p in s.requests && s.requests[p] == Editing(Draft(Some(1), body)) && forall q | q > 2 :: q !in s.requests
    ensures Reached(l, s0, t) && t.rows == map[1 := 100, 2 := 200]
  {
    hide Reached, Punctual;
    Opens(l, s0, s, 3, 2);
    var s1 := AfterOpening(s, 3, 2);
    Saves(l, s0, s1, p);
    var s2 := AfterSaving(s1, Draft(Some(1), body));
    var s3 := Commit(l, s0, s2, 4, 1, 100);
    assert s3.requests[3] == Editing(Draft(Some(2), body));
    Saves(l, s0, s3, 3);
    t := Commit(l, s0, AfterSaving(s3, Draft(Some(2), body)), 5, 2, 200);
  }

  // Within given limits, one draft, one report, in every run: exactly for
  // drafts that carry an id, and for all if the limits and the key are kept.
  lemma AtMostOneReportInTimeIff(l: Limits, d: Draft)
    ensures (forall s | Reached(l, Initial(d), s) :: |s.rows| <= 1) <==> d.id.Some? || (SubmitFits(l) && l.keepsReportId)
  {
    if d.id.Some? || (SubmitFits(l) && l.keepsReportId) {
      forall s | Reached(l, Initial(d), s) ensures |s.rows| <= 1 {
        var steps :| Run(Initial(d), steps) && TimedRun(l, Initial(d), steps) && End(Initial(d), steps) == s;
        if d.id.Some? {
          AtMostOneReport(d.id.value, d.body, steps);
          OneKey(s.rows, d.id.value);
        } else {
          AtMostOneReportInTime(l, d.body, steps);
        }
      }
    } else {
      var s;
      if SubmitFits(l) {
        s := TwoReportsAfterARestart(l, d.body);
      } else {
        s := TwoReports(l, d.body);
      }
      assert |s.rows| == 2;
    }
  }

  // Without any limits: exactly for drafts that carry an id.
  lemma AtMostOneReportIff(d: Draft)
    ensures (forall steps | Run(Initial(d), steps) :: |End(Initial(d), steps).rows| <= 1) <==> d.id.Some?
  {
    if d.id.Some? {
      forall steps | Run(Initial(d), steps) ensures |End(Initial(d), steps).rows| <= 1 {
        AtMostOneReport(d.id.value, d.body, steps);
        OneKey(End(Initial(d), steps).rows, d.id.value);
      }
    } else {
      var s := TwoReports(Limits(PENDING_TTL + 1, 1, 1, 1, 1, true), d.body);
      var steps :| Run(Initial(d), steps) && End(Initial(d), steps) == s;
      assert |End(Initial(d), steps).rows| == 2;
    }
  }
}
