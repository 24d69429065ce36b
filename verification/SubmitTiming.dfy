/**
 * What holds of the submission protocol when requests keep to time limits:
 * one owner at a time, and no draft restored after its report is committed.
 * The code bounds the submit up to its lookup, the landing of its COMMIT and a
 * recovery (_SUBMIT_TIMEOUT_SECONDS each, app/api/reports.py); it bounds
 * neither the give-back, which waits for the deletion of stored objects, nor
 * the life a draft has left when it is claimed. The limits are parameters, and
 * SubmitLimits shows which of them the results need.
 */
module SubmitTiming {
  import opened Options
  import opened DraftKeys
  import opened SubmitProtocol
  import opened SubmitSafety

  // A limit of nothing would let no request run, a life of nothing no claim.
  type Limit = n: nat | 0 < n witness 1
  type Life = n: nat | 0 < n <= SUBMISSION_TTL witness 1

  // From its claim: how long a submit may go on up to the lookup after a
  // failure, after that until it gives the draft back, and until its COMMIT
  // lands. From its start: a recovery. What is left of a draft's life when it is
  // claimed, at least. And whether the report-id key of an old draft stays.
  datatype Limits = Limits(
    submit: Limit, giveBack: Limit, landing: Limit, recovery: Limit, life: Life, keepsReportId: bool)

  // Both keys of a claim outlast the limit.
  predicate Outlasted(l: Limits, limit: nat) { limit <= PENDING_TTL && limit <= l.life }

  predicate SubmitFits(l: Limits) { Outlasted(l, l.submit) }
  predicate OwnersFit(l: Limits) { SubmitFits(l) && Outlasted(l, l.giveBack) }
  predicate AllFit(l: Limits) { OwnersFit(l) && Outlasted(l, l.landing) && l.recovery <= PENDING_TTL }

  // At work on the draft, up to what the lookup after a failure answers.
  ghost predicate Works(s: State, p: nat) {
    p in s.requests && s.requests[p].Submitting? && !s.requests[p].phase.Settled? && !s.requests[p].phase.Absent?
  }

  // Holds the draft and does not know its report to be committed.
  ghost predicate Owns(s: State, p: nat) { Works(s, p) || In(s, p, Absent) }

  ghost predicate Punctual(l: Limits, s: State) {
    && (forall p | Works(s, p) :: s.now < s.requests[p].since + l.submit)
    && (forall p | In(s, p, Absent) :: s.now < s.requests[p].since + l.giveBack)
    && (forall p | p in s.txs && s.txs[p].state.Issued? :: s.now < s.txs[p].since + l.landing)
    && (forall p | p in s.requests && s.requests[p].Recovering? :: s.now < s.requests[p].since + l.recovery)
  }

  predicate KeyDue(s: State, key: Key) {
    match key
    case DraftKey => Due(s.keys.draft, s.now)
    case ClaimedKey => Due(s.keys.claimed, s.now)
    case PendingKey => Due(s.keys.pending, s.now)
    case ResultKey => Due(s.keys.result, s.now)
    case ReportIdKey => Due(s.keys.reportId, s.now)
  }

  // The report-id key expires a draft's life after it was set, while a claim
  // that is given back starts the draft's life again; a restart deletes both.
  predicate KeepsReportId(a: Step) { !a.Restart? && a != Expire(ReportIdKey) }

  predicate NoneDue(s: State) {
    !KeyDue(s, DraftKey) && !KeyDue(s, ClaimedKey) && !KeyDue(s, PendingKey) && !KeyDue(s, ResultKey) && !KeyDue(s, ReportIdKey)
  }

  // A key goes at its time: not before it, and before anything else happens.
  ghost predicate KeysInTime(s: State, a: Step) {
    if a.Expire? then KeyDue(s, a.key) else NoneDue(s)
  }

  ghost predicate Timed(l: Limits, s: State, a: Step) {
    && Enabled(s, a) && Punctual(l, s) && Punctual(l, Apply(s, a)) && KeysInTime(s, a)
    && (a.Claim? && s.keys.draft.Some? && s.keys.claimed.None? ==> s.now + l.life <= s.keys.draft.value.expires)
    && (l.keepsReportId ==> KeepsReportId(a))
  }

  ghost predicate TimedRun(l: Limits, s: State, steps: seq<Step>)
    decreases |steps|
  {
    steps == [] || (Timed(l, s, steps[0]) && TimedRun(l, Apply(s, steps[0]), steps[1..]))
  }

  // "pending" names the claim p made at `since`, and its draft is under the
  // claimed key for a draft's remaining life at least.
  ghost predicate Held(l: Limits, s: State, p: nat, since: nat) {
    && s.keys.pending == Some(Entry(p, since + PENDING_TTL))
    && s.keys.claimed.Some? && since + l.life <= s.keys.claimed.value.expires
  }

  // The owners that have to end before their claim's keys go.
  ghost predicate Bounded(l: Limits, s: State, p: nat) {
    Works(s, p) || (In(s, p, Absent) && Outlasted(l, l.giveBack))
  }

  ghost predicate Exclusive(l: Limits, s: State) {
    forall p | Bounded(l, s, p) ::
      Held(l, s, p, s.requests[p].since) && Value(s.keys.claimed) == Some(s.requests[p].claim)
  }

  // A claim's keys change hands only through its own steps or in time.
  lemma HeldUnless(l: Limits, s: State, a: Step, p: nat, since: nat)
    requires Held(l, s, p, since) && Enabled(s, a) && KeysInTime(s, a)
    requires s.now < since + PENDING_TTL && s.now < since + l.life
    ensures || (Held(l, Apply(s, a), p, since) && Apply(s, a).keys.claimed == s.keys.claimed)
            || a == Refuse(p) || a == GiveBack(p) || a == Finish(p)
  {
    hide InsertFree;
  }

  lemma StaysExclusive(l: Limits, s: State, a: Step)
    requires SubmitFits(l) && Exclusive(l, s) && Timed(l, s, a)
    ensures Exclusive(l, Apply(s, a))
  {
    var t := Apply(s, a);
    forall p | Bounded(l, t, p)
      ensures Held(l, t, p, t.requests[p].since) && Value(t.keys.claimed) == Some(t.requests[p].claim)
    {
      BoundedBefore(l, s, a, p);
      if a != Claim(p) {
        HeldUnless(l, s, a, p, t.requests[p].since);
      }
    }
  }

  // It was bounded already, or claims the draft now.
  lemma BoundedBefore(l: Limits, s: State, a: Step, p: nat)
    requires SubmitFits(l) && Timed(l, s, a) && Bounded(l, Apply(s, a), p)
    ensures var r := Apply(s, a).requests[p];
            if a == Claim(p) then
              Held(l, Apply(s, a), p, r.since) && Value(Apply(s, a).keys.claimed) == Some(r.claim)
            else
              && Bounded(l, s, p) && s.requests[p].since == r.since && s.requests[p].claim == r.claim
              && s.now < r.since + PENDING_TTL && s.now < r.since + l.life
              && a != Refuse(p) && a != GiveBack(p) && a != Finish(p)
  {
    hide Assigned, InsertFree, Recovered, Finished, GivenBack, KeysInTime;
    if Mover(a) != Some(p) {
      hide Apply, Enabled;
      OthersStay(s, a, p);
    }
  }

  lemma {:induction false} TimedRunIsRun(l: Limits, s: State, steps: seq<Step>)
    requires TimedRun(l, s, steps)
    ensures Run(s, steps)
    decreases |steps|
  {
    if steps != [] {
      TimedRunIsRun(l, Apply(s, steps[0]), steps[1..]);
    }
  }

  lemma {:induction false} RunStaysExclusive(l: Limits, s: State, steps: seq<Step>)
    requires SubmitFits(l) && Exclusive(l, s) && TimedRun(l, s, steps)
    ensures Run(s, steps) && Exclusive(l, End(s, steps))
    decreases |steps|
  {
    if steps != [] {
      StaysExclusive(l, s, steps[0]);
      RunStaysExclusive(l, Apply(s, steps[0]), steps[1..]);
    }
  }

  // At most one submit owns the draft at any time.
  lemma AtMostOneOwner(l: Limits, d: Draft, steps: seq<Step>, p: nat, q: nat)
    requires OwnersFit(l) && TimedRun(l, Initial(d), steps)
    ensures Run(Initial(d), steps)
    ensures Owns(End(Initial(d), steps), p) && Owns(End(Initial(d), steps), q) ==> p == q
  {
    RunStaysExclusive(l, Initial(d), steps);
    var s := End(Initial(d), steps);
    assert Owns(s, p) && Owns(s, q) ==> Bounded(l, s, p) && Bounded(l, s, q);
  }

  // No COMMIT issued, and none can be any more without going through Inserted.
  ghost predicate Quiet(s: State, p: nat)
    requires p in s.requests && s.requests[p].Submitting?
  {
    var phase := s.requests[p].phase;
    phase.Validating? || phase.Inserted? || phase == Failed(None) || phase.Absent?
  }

  // A quiet owner's report is there exactly if it was there at the claim.
  ghost predicate OwnerOk(s: State, p: nat, x: nat)
    requires Owns(s, p)
  {
    Quiet(s, p) ==> (x in s.rows <==> s.requests[p].spent)
  }

  // How far a transaction is goes with how far its request is.
  ghost predicate InStep(s: State, p: nat)
    requires p in s.txs
  {
    && p in s.requests && (s.requests[p].Submitting? || s.requests[p].Editing? || s.requests[p].Ended?)
    && (s.requests[p].Submitting? ==> s.txs[p].since == s.requests[p].since && !s.requests[p].phase.Validating?)
    && (s.requests[p].Submitting? && Quiet(s, p) ==> s.txs[p].state.Open? || s.txs[p].state.Aborted?)
    && (s.requests[p].Editing? ==> !s.txs[p].state.Issued?)
  }

  // A COMMIT under way is covered by its claim's "pending", its request gone or not.
  ghost predicate Covered(l: Limits, s: State, p: nat)
    requires p in s.txs
  {
    s.txs[p].state.Issued? ==> Held(l, s, p, s.txs[p].since)
  }

  // A recovery that saw no report: the report is there only under a claim
  // that outlasts it, or with nothing left to restore.
  ghost predicate RecoveryOk(s: State, p: nat, x: nat)
    requires p in s.requests && s.requests[p].Recovering?
  {
    var r := s.requests[p];
    && r.since <= s.now
    && (s.keys.pending.Some? ==> r.since + PENDING_TTL <= s.keys.pending.value.expires)
    && (r.sight.LookedUp? && r.sight.found.None? && x in s.rows ==>
          s.keys.claimed.None? || s.keys.pending.Some?)
  }

  ghost predicate InTime(l: Limits, s: State, x: nat) {
    && Exclusive(l, s)
    && (forall p | Owns(s, p) :: OwnerOk(s, p, x))
    && (forall p | p in s.txs :: InStep(s, p) && Covered(l, s, p))
    && (forall p | p in s.requests && s.requests[p].Recovering? :: RecoveryOk(s, p, x))
  }

  // A commit lands only under the "pending" of its own claim.
  lemma LandsUnderItsClaim(l: Limits, s: State, q: nat, x: nat)
    requires InTime(l, s, x) && AllFit(l) && Enabled(s, Land(q))
    ensures Held(l, s, q, s.txs[q].since)
    ensures forall p | Owns(s, p) :: p == q && !Quiet(s, p)
  {
    assert InStep(s, q) && Covered(l, s, q);
    forall p | Owns(s, p) ensures p == q {
      assert Bounded(l, s, p);
    }
  }

  lemma OwnersStayOk(l: Limits, s: State, a: Step, x: nat, p: nat)
    requires Truthful(s) && OneId(s, x) && InTime(l, s, x) && AllFit(l) && Timed(l, s, a) && Owns(Apply(s, a), p)
    ensures OwnerOk(Apply(s, a), p, x)
  {
    hide TruthfulTx, RecoveryOk, InStep, Covered, Assigned, GivenBack, Recovered, Finished;
    if a.Land? {
      hide Truthful, OneId;
      LandsUnderItsClaim(l, s, a.p, x);
      assert Owns(s, p);
    } else if Mover(a) != Some(p) {
      hide Apply, Enabled, Truthful, OneId;
      OthersStay(s, a, p);
      RowsChangeByLanding(s, a);
      assert OwnerOk(s, p, x);
    } else {
      MoverStaysOk(s, a, x, p);
    }
  }

  lemma MoverStaysOk(s: State, a: Step, x: nat, p: nat)
    requires Truthful(s) && OneId(s, x) && Enabled(s, a) && !a.Land? && Mover(a) == Some(p) && Owns(Apply(s, a), p)
    requires Owns(s, p) ==> OwnerOk(s, p, x)
    ensures OwnerOk(Apply(s, a), p, x)
  {
    hide TruthfulTx, Assigned, GivenBack, Recovered, Finished, InsertFree;
    assert p in s.requests ==> CopiesOf(s.requests[p], x) && TruthfulRequest(s, p, s.requests[p]);
  }

  lemma MoverStaysInStep(s: State, a: Step, p: nat)
    requires Enabled(s, a) && Mover(a) == Some(p) && p in Apply(s, a).txs && (p in s.txs ==> InStep(s, p))
    ensures InStep(Apply(s, a), p)
  {
    hide Assigned, Recovered, Finished, Claimed, Row, InsertFree;
  }

  lemma TxsStayInStep(l: Limits, s: State, a: Step, x: nat, p: nat)
    requires InTime(l, s, x) && Enabled(s, a) && p in Apply(s, a).txs
    ensures InStep(Apply(s, a), p)
  {
    hide RecoveryOk, OwnerOk, Covered, Exclusive, Apply, Enabled;
    assert p in s.txs ==> InStep(s, p);
    if Mover(a) != Some(p) {
      OthersStay(s, a, p);
    } else {
      MoverStaysInStep(s, a, p);
    }
  }

  lemma TxsStayCovered(l: Limits, s: State, a: Step, x: nat, p: nat)
    requires Truthful(s) && OneId(s, x) && InTime(l, s, x) && AllFit(l) && Timed(l, s, a) && p in Apply(s, a).txs
    ensures Covered(l, Apply(s, a), p)
  {
    var t := Apply(s, a);
    if t.txs[p].state.Issued? {
      TxsStayInStep(l, s, a, x, p);
      CoveredBefore(l, s, a, x, p);
      HeldUnless(l, s, a, p, t.txs[p].since);
    }
  }

  // It was so already, or the owner issues its COMMIT now.
  lemma CoveredBefore(l: Limits, s: State, a: Step, x: nat, p: nat)
    requires Truthful(s) && OneId(s, x) && InTime(l, s, x) && AllFit(l) && Timed(l, s, a)
    requires p in Apply(s, a).txs && Apply(s, a).txs[p].state.Issued?
    ensures Held(l, s, p, Apply(s, a).txs[p].since)
    ensures var since := Apply(s, a).txs[p].since; s.now < since + PENDING_TTL && s.now < since + l.life
    ensures a != Refuse(p) && a != GiveBack(p) && a != Finish(p)
  {
    hide RecoveryOk, OwnerOk, TruthfulTx, TruthfulRequest, CopiesOf, Apply, Enabled;
    assert Punctual(l, Apply(s, a));
    if Mover(a) != Some(p) {
      OthersStay(s, a, p);
      assert Covered(l, s, p);
    } else {
      MoverKeepsOrIssues(s, a, p);
      assert InStep(s, p) && Covered(l, s, p);
      if a == IssueCommit(p) {
        assert Owns(s, p);
      } else if a == Finish(p) {
        SettledIsNotUnderWay(s, x, p);
      }
    }
  }

  lemma MoverKeepsOrIssues(s: State, a: Step, p: nat)
    requires Enabled(s, a) && Mover(a) == Some(p) && p in Apply(s, a).txs && Apply(s, a).txs[p].state.Issued?
    ensures p in s.txs && Apply(s, a).txs[p].since == s.txs[p].since
    ensures if a == IssueCommit(p) then In(s, p, Inserted) else s.txs[p].state.Issued?
    ensures a == GiveBack(p) ==> In(s, p, Absent)
    ensures a == Refuse(p) ==> In(s, p, Validating)
  {
    hide Assigned, GivenBack, Recovered, Finished, Claimed, Row, InsertFree;
  }

  lemma SettledIsNotUnderWay(s: State, x: nat, p: nat)
    requires Truthful(s) && OneId(s, x) && Enabled(s, Finish(p)) && p in s.txs
    ensures !s.txs[p].state.Issued?
  {
    assert TruthfulTx(s, p, s.txs[p]) && TruthfulRequest(s, p, s.requests[p]) && CopiesOf(s.requests[p], x);
  }

  // "pending" is set by a claim, and only then.
  lemma PendingAfter(s: State, a: Step)
    requires Enabled(s, a)
    ensures var k, t := s.keys.pending, Apply(s, a).keys.pending;
            t.None? || t == k || (a.Claim? && t == Some(Entry(a.p, s.now + PENDING_TTL)))
  {
    hide InsertFree;
  }

  // A claimed key has a "pending" until that expires.
  lemma ClaimedUnderPending(s: State, a: Step)
    requires Enabled(s, a) && (s.keys.claimed.None? || s.keys.pending.Some?) && a != Expire(PendingKey)
    ensures Apply(s, a).keys.claimed.None? || Apply(s, a).keys.pending.Some?
  {
    hide InsertFree;
  }

  lemma RecoveringBefore(s: State, a: Step, p: nat)
    requires Enabled(s, a) && p in Apply(s, a).requests && Apply(s, a).requests[p].Recovering?
    ensures var r := Apply(s, a).requests[p];
            if a == RecoverCheck(p) then r.since == s.now && s.keys.pending.None?
            else p in s.requests && s.requests[p].Recovering? && s.requests[p].since == r.since
    ensures s.now <= Apply(s, a).now
  {
    hide Assigned, GivenBack, Recovered, Finished, Claimed, InsertFree;
  }

  // A "pending" set after the recovery began outlasts it.
  lemma PendingOutlastsRecovery(l: Limits, s: State, a: Step, x: nat, p: nat)
    requires InTime(l, s, x) && Enabled(s, a)
    requires p in Apply(s, a).requests && Apply(s, a).requests[p].Recovering?
    ensures var t := Apply(s, a);
            && t.requests[p].since <= t.now
            && (t.keys.pending.Some? ==> t.requests[p].since + PENDING_TTL <= t.keys.pending.value.expires)
  {
    hide OwnerOk, InStep, Covered, Exclusive, Apply, Enabled;
    PendingAfter(s, a);
    RecoveringBefore(s, a, p);
    if a != RecoverCheck(p) {
      assert RecoveryOk(s, p, x);
    }
  }

  // What a recovery missed is still covered.
  lemma MissedIsCovered(l: Limits, s: State, a: Step, x: nat, p: nat)
    requires InTime(l, s, x) && AllFit(l) && Timed(l, s, a)
    requires p in s.requests && s.requests[p].Recovering? && Apply(s, a).requests[p] == s.requests[p]
    requires s.requests[p].sight.LookedUp? && s.requests[p].sight.found.None? && x in Apply(s, a).rows
    ensures Apply(s, a).keys.claimed.None? || Apply(s, a).keys.pending.Some?
  {
    hide OwnerOk, InStep, Covered, Exclusive;
    assert RecoveryOk(s, p, x);
    assert s.now < s.requests[p].since + l.recovery;
    hide Punctual;
    if a.Land? {
      LandsUnderItsClaim(l, s, a.p, x);
    } else {
      RowsChangeByLanding(s, a);
      if a != Expire(PendingKey) {
        ClaimedUnderPending(s, a);
      }
      hide Apply;
    }
  }

  // A recovery's own step to having seen nothing: its lookup, just now.
  lemma MoverSeesNothing(s: State, a: Step, x: nat, p: nat)
    requires OneId(s, x) && Enabled(s, a) && Mover(a) == Some(p) && (p in s.txs ==> InStep(s, p))
    requires var t := Apply(s, a);
             && p in t.requests && t.requests[p].Recovering?
             && t.requests[p].sight.LookedUp? && t.requests[p].sight.found.None?
    ensures x !in Apply(s, a).rows
  {
    hide Assigned, GivenBack, Recovered, Finished, Claimed, InsertFree;
    assert p in s.requests && CopiesOf(s.requests[p], x);
  }

  lemma RecoveriesStayOk(l: Limits, s: State, a: Step, x: nat, p: nat)
    requires Truthful(s) && OneId(s, x) && InTime(l, s, x) && AllFit(l) && Timed(l, s, a)
    requires p in Apply(s, a).requests && Apply(s, a).requests[p].Recovering?
    ensures RecoveryOk(Apply(s, a), p, x)
  {
    hide Truthful, OneId, OwnerOk, Covered, Exclusive, Apply, Enabled;
    PendingOutlastsRecovery(l, s, a, x, p);
    var t := Apply(s, a);
    if t.requests[p].sight.LookedUp? && t.requests[p].sight.found.None? && x in t.rows {
      if Mover(a) != Some(p) {
        OthersStay(s, a, p);
        MissedIsCovered(l, s, a, x, p);
      } else {
        assert p in s.txs ==> InStep(s, p);
        MoverSeesNothing(s, a, x, p);
      }
    }
  }

  lemma StaysInTime(l: Limits, s: State, a: Step, x: nat)
    requires Truthful(s) && OneId(s, x) && InTime(l, s, x) && AllFit(l) && Timed(l, s, a)
    ensures InTime(l, Apply(s, a), x)
  {
    var t := Apply(s, a);
    StaysExclusive(l, s, a);
    forall p | Owns(t, p) ensures OwnerOk(t, p, x) {
      OwnersStayOk(l, s, a, x, p);
    }
    forall p | p in t.txs ensures InStep(t, p) && Covered(l, t, p) {
      TxsStayInStep(l, s, a, x, p);
      TxsStayCovered(l, s, a, x, p);
    }
    forall p | p in t.requests && t.requests[p].Recovering? ensures RecoveryOk(t, p, x) {
      RecoveriesStayOk(l, s, a, x, p);
    }
  }

  lemma {:induction false} RunStaysInTime(l: Limits, s: State, steps: seq<Step>, x: nat)
    requires Truthful(s) && OneId(s, x) && InTime(l, s, x) && AllFit(l) && TimedRun(l, s, steps)
    ensures Run(s, steps) && Truthful(End(s, steps)) && OneId(End(s, steps), x) && InTime(l, End(s, steps), x)
    decreases |steps|
  {
    if steps != [] {
      StaysTruthful(s, steps[0]);
      StaysOneId(s, steps[0], x);
      StaysInTime(l, s, steps[0], x);
      RunStaysInTime(l, Apply(s, steps[0]), steps[1..], x);
    }
  }

  // A recovery that brings the draft back does so before its report is there,
  // even if the submitter never learned what became of its COMMIT.
  lemma RecoveryRestoresOnlyUncommitted(l: Limits, x: nat, body: nat, steps: seq<Step>, p: nat)
    requires AllFit(l) && TimedRun(l, Initial(Draft(Some(x), body)), steps)
    requires Run(Initial(Draft(Some(x), body)), steps)
    requires var s := End(Initial(Draft(Some(x), body)), steps);
             && Enabled(s, RecoverEval(p)) && s.keys.draft.None?
             && Apply(s, RecoverEval(p)).keys.draft.Some?
    ensures x !in End(Initial(Draft(Some(x), body)), steps).rows
  {
    RunStaysInTime(l, Initial(Draft(Some(x), body)), steps, x);
    var s := End(Initial(Draft(Some(x), body)), steps);
    assert RecoveryOk(s, p, x);
  }

  // A submit that failed gives the draft back only while no report is there.
  lemma FailedSubmitGivesBackOnlyUncommitted(l: Limits, x: nat, body: nat, steps: seq<Step>, p: nat)
    requires AllFit(l) && TimedRun(l, Initial(Draft(Some(x), body)), steps)
    requires Run(Initial(Draft(Some(x), body)), steps)
    requires Enabled(End(Initial(Draft(Some(x), body)), steps), GiveBack(p))
    ensures x !in End(Initial(Draft(Some(x), body)), steps).rows
  {
    RunStaysInTime(l, Initial(Draft(Some(x), body)), steps, x);
    var s := End(Initial(Draft(Some(x), body)), steps);
    assert OwnerOk(s, p, x) && TruthfulRequest(s, p, s.requests[p]);
  }

  // A claim refused by the draft's own checks is given back without a lookup:
  // after its report's commit exactly if the claimed draft was spent already.
  // Only a page that loaded the draft before the commit and saved it after
  // brings such a draft about.
  lemma RefusedAfterCommitIffSpentAtClaim(l: Limits, x: nat, body: nat, steps: seq<Step>, p: nat)
    requires AllFit(l) && TimedRun(l, Initial(Draft(Some(x), body)), steps)
    requires Run(Initial(Draft(Some(x), body)), steps)
    requires Enabled(End(Initial(Draft(Some(x), body)), steps), Refuse(p))
    ensures var s := End(Initial(Draft(Some(x), body)), steps);
            x in s.rows <==> s.requests[p].spent
  {
    RunStaysInTime(l, Initial(Draft(Some(x), body)), steps, x);
    var s := End(Initial(Draft(Some(x), body)), steps);
    assert OwnerOk(s, p, x);
  }
}
