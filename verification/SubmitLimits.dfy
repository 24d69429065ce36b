/**
 * Which time limits the submission protocol needs: for each of them the run in
 * which a request beyond it breaks the promise, so that the promises hold in
 * every run exactly if the limits fit the lives of the keys.
 */
module SubmitLimits {
  import opened Options
  import opened DraftKeys
  import opened SubmitProtocol
  import opened SubmitSafety
  import opened SubmitTiming
  import opened SubmitRuns

  // Time passes for a while in which nobody is late.
  lemma Wait(l: Limits, s0: State, s: State, seconds: nat)
    requires Reached(l, s0, s) && Ready(l, s) && Punctual(l, s.(now := s.now + seconds))
    ensures Reached(l, s0, s.(now := s.now + seconds))
  {
    hide Reached, Punctual;
    assert Apply(s, Tick(seconds)) == s.(now := s.now + seconds);
    assert Timed(l, s, Tick(seconds));
    Then(l, s0, s, Tick(seconds));
  }

  lemma Goes(l: Limits, s0: State, s: State, key: Key)
    requires Reached(l, s0, s) && Punctual(l, s) && KeyDue(s, key) && (key == ReportIdKey ==> !l.keepsReportId)
    ensures Reached(l, s0, s.(keys := Without(s.keys, key))) && Punctual(l, s.(keys := Without(s.keys, key)))
  {
    hide Reached, KeyDue;
    var t := s.(keys := Without(s.keys, key));
    assert Punctual(l, t);
    hide Punctual;
    Then(l, s0, s, Expire(key));
  }

  // A request that takes long: at its checks, at giving back after a failure,
  // or gone while its COMMIT is under way.
  datatype Slow = AtWork | GivingBack | Landing

  function LimitOf(l: Limits, slow: Slow): nat {
    match slow
    case AtWork => l.submit
    case GivingBack => l.giveBack
    case Landing => l.landing
  }

  // Request 0 claimed the draft d at `since` and is slow.
  ghost predicate IsSlow(s: State, d: Draft, since: nat, slow: Slow) {
    && 0 in s.requests
    && match slow
       case AtWork => s.requests[0] == Submitting(d, since, false, Validating) && s.txs == map[]
       case GivingBack => s.requests[0] == Submitting(d, since, false, Absent) && s.txs == map[]
       case Landing => s.requests[0] == Ended && d.id.Some? && s.txs == map[0 := Tx(d.id.value, 50, since, Issued)]
  }

  // Nothing else is under way.
  ghost predicate Alone(s: State) {
    forall p | p in s.requests && p != 0 :: s.requests[p].Reading? || s.requests[p].Editing? || s.requests[p].Ended?
  }

  lemma SlowIsPunctual(l: Limits, s: State, d: Draft, since: nat, slow: Slow)
    requires IsSlow(s, d, since, slow) && Alone(s) && s.now < since + LimitOf(l, slow)
    ensures Punctual(l, s)
  {
  }

  lemma Begins(l: Limits, s0: State, s: State, slow: Slow) returns (t: State)
    requires Reached(l, s0, s) && Ready(l, s) && Claimable(l, s) && 0 !in s.requests && Alone(s)
    requires s.rows == map[] && s.txs == map[] && (!slow.AtWork? ==> s.keys.draft.value.value.id.Some?)
    ensures Reached(l, s0, t) && Ready(l, t) && Alone(t) && IsSlow(t, s.keys.draft.value.value, s.now, slow)
    ensures t.now == s.now && t.rows == map[] && t.keys == AfterClaim(s, 0).keys
    ensures forall p | p != 0 :: p in t.requests <==> p in s.requests
    ensures forall p | p in s.requests && p != 0 :: t.requests[p] == s.requests[p]
  {
    hide Reached, Punctual;
    ClaimIt(l, s0, s, 0);
    t := AfterClaim(s, 0);
    match slow
    case AtWork =>
    case GivingBack =>
      t := FailsEarly(l, s0, t, 0);
    case Landing =>
      var id := s.keys.draft.value.value.id.value;
      IssueIt(l, s0, t, 0, id, 50);
      var t1 := AfterInsert(t, 0, id, 50);
      t := Apply(t1, Crash(0));
      StaysReady(l, s0, t1, Crash(0), 0, t);
  }

  // A submit fails at its checks and finds no report.
  lemma FailsEarly(l: Limits, s0: State, s: State, p: nat) returns (t: State)
    requires Reached(l, s0, s) && Ready(l, s) && In(s, p, Validating) && JustBegan(s, p)
    requires s.requests[p].claim.id.Some? && Row(s, s.requests[p].claim.id).None?
    ensures Reached(l, s0, t) && Ready(l, t)
    ensures t == s.(requests := s.requests[p := s.requests[p].(phase := Absent)])
  {
    hide Reached, Punctual;
    var s1 := Apply(s, Fail(p));
    StaysReady(l, s0, s, Fail(p), p, s1);
    t := Apply(s1, Lookup(p));
    StaysReady(l, s0, s1, Lookup(p), p, t);
    assert t.requests == s.requests[p := s.requests[p].(phase := Absent)];
  }

  // A recovery that finds no report restores the claimed draft, with what is
  // left of its life.
  lemma Recover(l: Limits, s0: State, s: State, p: nat)
    requires Reached(l, s0, s) && Ready(l, s) && p !in s.requests && p !in s.txs
    requires s.keys.draft.None? && s.keys.pending.None? && s.keys.claimed.Some?
    requires Row(s, s.keys.claimed.value.value.id).None?
    ensures var t := s.(keys := s.keys.(draft := s.keys.claimed, claimed := None), requests := s.requests[p := Ended]);
            Reached(l, s0, t) && Ready(l, t)
  {
    hide Reached, Punctual;
    LooksUp(l, s0, s, p);
    var s1 := AfterLookup(s, p);
    var t := Apply(s1, RecoverEval(p));
    StaysReady(l, s0, s1, RecoverEval(p), p, t);
    assert t.requests == s.requests[p := Ended];
  }

  function AfterLookup(s: State, p: nat): State
    requires s.keys.claimed.Some?
  {
    s.(requests := s.requests[p := Recovering(s.now, LookedUp(s.keys.claimed.value.value, None))])
  }

  lemma LooksUp(l: Limits, s0: State, s: State, p: nat)
    requires Reached(l, s0, s) && Ready(l, s) && p !in s.requests && p !in s.txs
    requires s.keys.draft.None? && s.keys.pending.None? && s.keys.claimed.Some?
    requires Row(s, s.keys.claimed.value.value.id).None?
    ensures Reached(l, s0, AfterLookup(s, p)) && Ready(l, AfterLookup(s, p))
  {
    hide Reached, Punctual;
    var s1 := Apply(s, RecoverCheck(p));
    StaysReady(l, s0, s, RecoverCheck(p), p, s1);
    ReadsAndLooksUp(l, s0, s1, p);
    assert AfterLookup(s1, p).requests == AfterLookup(s, p).requests;
  }

  lemma ReadsAndLooksUp(l: Limits, s0: State, s: State, p: nat)
    requires Reached(l, s0, s) && Ready(l, s) && Sees(s, p, Checked) && s.requests[p].since == s.now && p !in s.txs
    requires s.keys.claimed.Some? && Row(s, s.keys.claimed.value.value.id).None?
    ensures Reached(l, s0, AfterLookup(s, p)) && Ready(l, AfterLookup(s, p))
  {
    hide Reached, Punctual;
    var s1 := Apply(s, RecoverRead(p));
    StaysReady(l, s0, s, RecoverRead(p), p, s1);
    var s2 := Apply(s1, RecoverLookup(p));
    StaysReady(l, s0, s1, RecoverLookup(p), p, s2);
    assert s2.requests == AfterLookup(s, p).requests;
  }

  function Given(d: Draft, x: nat): Draft { d.(id := Some(x)) }

  function AfterOpening(s: State, p: nat, x: nat): State
    requires s.keys.draft.Some?
  {
    var d := s.keys.draft.value.value;
    s.(keys := if d.id.Some? || s.keys.reportId.Some? then s.keys else s.keys.(reportId := Some(Entry(x, s.now + SUBMISSION_TTL))),
       requests := s.requests[p := Editing(Given(d, x))])
  }

  // A page loads the draft, with the id x or given x.
  lemma Opens(l: Limits, s0: State, s: State, p: nat, x: nat)
    requires Reached(l, s0, s) && Ready(l, s) && p !in s.requests && p !in s.txs && s.keys.draft.Some?
    requires var id := s.keys.draft.value.value.id; id == Some(x) || (id.None? && (s.keys.reportId.None? || Value(s.keys.reportId) == Some(x)))
    ensures Reached(l, s0, AfterOpening(s, p, x)) && Ready(l, AfterOpening(s, p, x))
  {
    hide Reached, Punctual;
    var s1 := Apply(s, Load(p));
    StaysReady(l, s0, s, Load(p), p, s1);
    var d := s.keys.draft.value.value;
    if d.id.None? {
      var s2 := Apply(s1, Assign(p, x));
      StaysReady(l, s0, s1, Assign(p, x), p, s2);
      assert s2.requests == s.requests[p := Editing(Given(d, x))];
    }
  }

  function AfterSaving(s: State, d: Draft): State {
    s.(keys := s.keys.(draft := Some(Entry(d, s.now + SUBMISSION_TTL))))
  }

  lemma Saves(l: Limits, s0: State, s: State, p: nat)
    requires Reached(l, s0, s) && Ready(l, s) && p in s.requests && s.requests[p].Editing? && p !in s.txs
    ensures var t := AfterSaving(s, s.requests[p].held); Reached(l, s0, t) && Ready(l, t)
  {
    hide Reached, Punctual;
    var d := s.requests[p].held;
    StaysReady(l, s0, s, Save(p, d.body), p, AfterSaving(s, d));
  }

  // A slow request is overtaken: its claim's keys are gone, or "pending" alone
  // is left of them, and the draft, with the id x, can be claimed anew.
  ghost predicate IsOvertaken(l: Limits, s: State, d: Draft, x: nat, slow: Slow) {
    && Ready(l, s) && Alone(s) && s.rows == map[] && (exists since :: IsSlow(s, d, since, slow))
    && s.keys.draft == Some(Entry(Given(d, x), s.now + SUBMISSION_TTL)) && s.keys.claimed.None?
    && !HeldByAnother(s.keys, 0) && (d.id.Some? ==> s.keys.reportId.None?)
    && forall p | p in s.requests :: p < 3
  }

  lemma Overtaken(l: Limits, d: Draft, x: nat, slow: Slow) returns (s: State)
    requires !Outlasted(l, LimitOf(l, slow)) && (d.id == Some(x) || (d.id.None? && slow.AtWork?))
    ensures Reached(l, Initial(d), s) && IsOvertaken(l, s, d, x, slow)
  {
    if LimitOf(l, slow) > PENDING_TTL {
      s := OutlastsPending(l, d, x, slow);
    } else {
      s := OutlastsTheDraft(l, d, x, slow);
    }
  }

  // Once "pending" is gone a recovery restores the draft.
  lemma OutlastsPending(l: Limits, d: Draft, x: nat, slow: Slow) returns (s: State)
    requires LimitOf(l, slow) > PENDING_TTL && (d.id == Some(x) || (d.id.None? && slow.AtWork?))
    ensures Reached(l, Initial(d), s) && IsOvertaken(l, s, d, x, slow)
  {
    hide Reached, Punctual;
    var s0 := Initial(d);
    Start(l, s0);
    StartsReady(l, d);
    var s1 := Begins(l, s0, s0, slow);
    var s2 := s1.(now := PENDING_TTL);
    SlowIsPunctual(l, s2, d, 0, slow);
    Wait(l, s0, s1, PENDING_TTL);
    Goes(l, s0, s2, PendingKey);
    var s3 := s2.(keys := s2.keys.(pending := None));
    Recover(l, s0, s3, 2);
    var s4 := s3.(keys := s3.keys.(draft := s3.keys.claimed, claimed := None), requests := s3.requests[2 := Ended]);
    Opens(l, s0, s4, 1, x);
    var s5 := AfterOpening(s4, 1, x);
    Saves(l, s0, s5, 1);
    s := AfterSaving(s5, Given(d, x));
    assert IsSlow(s, d, 0, slow);
  }

  lemma StartsReady(l: Limits, d: Draft)
    ensures Ready(l, Initial(d)) && Claimable(l, Initial(d)) && Alone(Initial(d))
  {
  }

  lemma NobodyIsLate(l: Limits, d: Draft, now: nat)
    ensures Punctual(l, Initial(d).(now := now))
  {
  }

  // The claimed key goes with the rest of the draft's life; a page that loaded
  // the draft before saves it again.
  lemma OutlastsTheDraft(l: Limits, d: Draft, x: nat, slow: Slow) returns (s: State)
    requires l.life < LimitOf(l, slow) <= PENDING_TTL && (d.id == Some(x) || (d.id.None? && slow.AtWork?))
    ensures Reached(l, Initial(d), s) && IsOvertaken(l, s, d, x, slow)
  {
    hide Reached, Punctual;
    var s0 := Initial(d);
    Start(l, s0);
    StartsReady(l, d);
    var since := SUBMISSION_TTL - l.life;
    var s1 := s0.(now := since);
    NobodyIsLate(l, d, since);
    Wait(l, s0, s0, since);
    Opens(l, s0, s1, 1, x);
    var s2 := AfterOpening(s1, 1, x);
    var s3 := Begins(l, s0, s2, slow);
    var s4 := s3.(now := SUBMISSION_TTL);
    SlowIsPunctual(l, s4, d, since, slow);
    Wait(l, s0, s3, l.life);
    Goes(l, s0, s4, ClaimedKey);
    var s5 := s4.(keys := s4.keys.(claimed := None));
    Saves(l, s0, s5, 1);
    s := AfterSaving(s5, Given(d, x));
    assert IsSlow(s, d, since, slow);
  }

  ghost predicate OneOwner(s: State) { forall p, q | Owns(s, p) && Owns(s, q) :: p == q }

  // The overtaken request works on the draft, or is about to give it back,
  // while another claims it.
  lemma TwoOwners(l: Limits, x: nat, body: nat, slow: Slow) returns (s: State)
    requires !Outlasted(l, LimitOf(l, slow)) && !slow.Landing?
    ensures Reached(l, Initial(Draft(Some(x), body)), s) && !OneOwner(s)
  {
    hide Reached, Punctual;
    var d := Draft(Some(x), body);
    var s1 := Overtaken(l, d, x, slow);
    ClaimIt(l, Initial(d), s1, 3);
    s := AfterClaim(s1, 3);
    assert Owns(s, 0) && Owns(s, 3);
  }

  // One owner at a time in every run: exactly if a submit, its give-back
  // included, ends before either of its claim's keys can go.
  lemma OneOwnerIff(l: Limits, x: nat, body: nat)
    ensures (forall s | Reached(l, Initial(Draft(Some(x), body)), s) :: OneOwner(s)) <==> OwnersFit(l)
  {
    var s0 := Initial(Draft(Some(x), body));
    if OwnersFit(l) {
      forall s | Reached(l, s0, s) ensures OneOwner(s) {
        var steps :| Run(s0, steps) && TimedRun(l, s0, steps) && End(s0, steps) == s;
        forall p, q | Owns(s, p) && Owns(s, q) ensures p == q {
          AtMostOneOwner(l, Draft(Some(x), body), steps, p, q);
        }
      }
    } else {
      var s := TwoOwners(l, x, body, if SubmitFits(l) then GivingBack else AtWork);
    }
  }

  // The step brings a draft back whose report is committed. A refused claim
  // whose draft was spent already when it was claimed does not count: see
  // SubmitRuns.SpentDraftCanBeGivenBack.
  ghost predicate Revives(s: State, a: Step, x: nat) {
    && (a.Refuse? || a.GiveBack? || a.RecoverEval?) && Enabled(s, a)
    && s.keys.draft.None? && Apply(s, a).keys.draft.Some?
    && x in s.rows && !(a.Refuse? && s.requests[a.p].spent)
  }

  ghost predicate NothingRevives(s: State, x: nat) { forall a :: !Revives(s, a, x) }

  // Another request commits the overtaken one's report, which then gives the
  // draft back.
  lemma RevivedByItsOwner(l: Limits, x: nat, body: nat, slow: Slow) returns (s: State)
    requires !Outlasted(l, LimitOf(l, slow)) && !slow.Landing?
    ensures Reached(l, Initial(Draft(Some(x), body)), s) && !NothingRevives(s, x)
  {
    hide Reached, Punctual;
    var d := Draft(Some(x), body);
    var s1 := Overtaken(l, d, x, slow);
    s := Commit(l, Initial(d), s1, 3, x, 100);
    assert s.requests[0] == s1.requests[0];
    GivesBackTooLate(s, 0, x);
  }

  lemma GivesBackTooLate(s: State, p: nat, x: nat)
    requires In(s, p, Absent) || (In(s, p, Validating) && !s.requests[p].spent)
    requires s.keys.draft.None? && !HeldByAnother(s.keys, p) && x in s.rows
    ensures !NothingRevives(s, x)
  {
    assert Revives(s, if In(s, p, Absent) then GiveBack(p) else Refuse(p), x);
  }

  // A COMMIT lands after another request has looked for its report in vain.
  lemma RevivedByALookup(l: Limits, x: nat, body: nat) returns (s: State)
    requires !Outlasted(l, l.landing)
    ensures Reached(l, Initial(Draft(Some(x), body)), s) && !NothingRevives(s, x)
  {
    hide Reached, Punctual;
    var d := Draft(Some(x), body);
    var s1 := Overtaken(l, d, x, Landing);
    ClaimIt(l, Initial(d), s1, 3);
    var s2 := FailsEarly(l, Initial(d), AfterClaim(s1, 3), 3);
    s := Lands(l, Initial(d), s2, 0);
    GivesBackTooLate(s, 3, x);
  }

  // A recovery begins before a claim and sees its token but not its report;
  // the submitter is gone and so, in the end, is "pending".
  lemma RevivedByARecovery(l: Limits, x: nat, body: nat) returns (s: State)
    requires l.recovery > PENDING_TTL
    ensures Reached(l, Initial(Draft(Some(x), body)), s) && !NothingRevives(s, x)
  {
    hide Reached, Punctual;
    var d := Draft(Some(x), body);
    var s0 := Initial(d);
    var s1 := BegunTooSoon(l, d, x);
    var s2 := SeesTooLittle(l, d, x, s1);
    var s3 := s2.(now := s2.now + PENDING_TTL);
    OnlyTheRecoveryIsThere(l, s3);
    Wait(l, s0, s2, PENDING_TTL);
    Goes(l, s0, s3, PendingKey);
    s := s3.(keys := s3.keys.(pending := None));
    assert Revives(s, RecoverEval(2), x);
  }

  // The draft has expired, a recovery begins, and a page saves the draft.
  lemma BegunTooSoon(l: Limits, d: Draft, x: nat) returns (s: State)
    requires d.id == Some(x)
    ensures Reached(l, Initial(d), s) && Ready(l, s)
    ensures s == State(SUBMISSION_TTL, Keys(Some(Entry(d, SUBMISSION_TTL + SUBMISSION_TTL)), None, None, None, None), map[], map[],
                       map[1 := Editing(d), 2 := Recovering(SUBMISSION_TTL, Checked)])
  {
    hide Reached;
    var s0 := Initial(d);
    Start(l, s0);
    StartsReady(l, d);
    Opens(l, s0, s0, 1, x);
    var s1 := AfterOpening(s0, 1, x);
    Wait(l, s0, s1, SUBMISSION_TTL);
    var s2 := s1.(now := SUBMISSION_TTL);
    Goes(l, s0, s2, DraftKey);
    var s3 := s2.(keys := s2.keys.(draft := None));
    hide Punctual;
    var s4 := Apply(s3, RecoverCheck(2));
    StaysReady(l, s0, s3, RecoverCheck(2), 2, s4);
    Saves(l, s0, s4, 1);
    s := AfterSaving(s4, d);
    assert s.requests == map[1 := Editing(d), 2 := Recovering(SUBMISSION_TTL, Checked)];
  }

  // A claim, the recovery's read and lookup, and the claim's commit.
  lemma SeesTooLittle(l: Limits, d: Draft, x: nat, s: State) returns (t: State)
    requires Reached(l, Initial(d), s) && Ready(l, s) && d.id == Some(x)
    requires s == State(SUBMISSION_TTL, Keys(Some(Entry(d, SUBMISSION_TTL + SUBMISSION_TTL)), None, None, None, None), map[], map[],
                        map[1 := Editing(d), 2 := Recovering(SUBMISSION_TTL, Checked)])
    ensures Reached(l, Initial(d), t) && Ready(l, t)
    ensures t == State(s.now, Keys(None, s.keys.draft, Some(Entry(3, s.now + PENDING_TTL)), None, None), map[x := 100],
                       map[3 := Tx(x, 100, s.now, Landed)],
                       map[1 := Editing(d), 2 := Recovering(s.now, LookedUp(d, None)), 3 := Ended])
  {
    hide Reached, Punctual;
    ClaimIt(l, Initial(d), s, 3);
    var s1 := AfterClaim(s, 3);
    ReadsAndLooksUp(l, Initial(d), s1, 2);
    var s2 := AfterLookup(s1, 2);
    IssueIt(l, Initial(d), s2, 3, x, 100);
    t := LandsAlone(l, Initial(d), AfterInsert(s2, 3, x, 100), 3);
    assert t.requests == map[1 := Editing(d), 2 := Recovering(s.now, LookedUp(d, None)), 3 := Ended];
  }

  // A COMMIT lands, however long it was under way.
  lemma Lands(l: Limits, s0: State, s: State, p: nat) returns (t: State)
    requires Reached(l, s0, s) && Ready(l, s) && p in s.txs && s.txs[p].state.Issued?
    requires p in s.requests && s.requests[p].Ended?
    ensures Reached(l, s0, t) && Ready(l, t)
    ensures t == s.(rows := s.rows[s.txs[p].id := s.txs[p].number], txs := s.txs[p := s.txs[p].(state := Landed)])
  {
    hide Reached, Punctual;
    t := Apply(s, Land(p));
    StaysReady(l, s0, s, Land(p), p, t);
  }

  // The COMMIT lands and its request is gone.
  lemma LandsAlone(l: Limits, s0: State, s: State, p: nat) returns (t: State)
    requires Reached(l, s0, s) && Ready(l, s) && p in s.txs && s.txs[p].state.Issued? && p in s.requests && JustBegan(s, p)
    ensures Reached(l, s0, t) && Ready(l, t)
    ensures t == s.(rows := s.rows[s.txs[p].id := s.txs[p].number], txs := s.txs[p := s.txs[p].(state := Landed)],
                    requests := s.requests[p := Ended])
  {
    hide Reached, Punctual;
    var s1 := Apply(s, Land(p));
    StaysReady(l, s0, s, Land(p), p, s1);
    t := Apply(s1, Crash(p));
    StaysReady(l, s0, s1, Crash(p), p, t);
  }

  lemma OnlyTheRecoveryIsThere(l: Limits, s: State)
    requires forall p | p in s.requests :: s.requests[p].Recovering? || s.requests[p].Editing? || s.requests[p].Ended?
    requires forall p | p in s.requests && s.requests[p].Recovering? :: s.now == s.requests[p].since + PENDING_TTL
    requires forall p | p in s.txs :: s.txs[p].state.Landed?
    requires l.recovery > PENDING_TTL
    ensures Punctual(l, s)
  {
  }

  // Nothing brings a draft back after its report's commit, in every run:
  // exactly if, beside the owners, a COMMIT lands before either of its claim's
  // keys can go, and a recovery ends within the life of "pending".
  lemma NothingRevivesIff(l: Limits, x: nat, body: nat)
    ensures (forall s | Reached(l, Initial(Draft(Some(x), body)), s) :: NothingRevives(s, x)) <==> AllFit(l)
  {
    var s0 := Initial(Draft(Some(x), body));
    if AllFit(l) {
      forall s, a | Reached(l, s0, s) ensures !Revives(s, a, x) {
        var steps :| Run(s0, steps) && TimedRun(l, s0, steps) && End(s0, steps) == s;
        if Revives(s, a, x) {
          match a
          case Refuse(p) => RefusedAfterCommitIffSpentAtClaim(l, x, body, steps, p);
          case GiveBack(p) => FailedSubmitGivesBackOnlyUncommitted(l, x, body, steps, p);
          case RecoverEval(p) => RecoveryRestoresOnlyUncommitted(l, x, body, steps, p);
        }
      }
    } else {
      var s := Revival(l, x, body);
    }
  }

  lemma Revival(l: Limits, x: nat, body: nat) returns (s: State)
    requires !AllFit(l)
    ensures Reached(l, Initial(Draft(Some(x), body)), s) && !NothingRevives(s, x)
  {
    if !SubmitFits(l) {
      s := RevivedByItsOwner(l, x, body, AtWork);
    } else if !OwnersFit(l) {
      s := RevivedByItsOwner(l, x, body, GivingBack);
    } else if !Outlasted(l, l.landing) {
      s := RevivedByALookup(l, x, body);
    } else {
      s := RevivedByARecovery(l, x, body);
    }
  }

  // The code bounds the submit and its lookup, and a recovery's lookup, by 30
  // seconds each, the COMMIT by its own 30 from then. That leaves two
  // conditions on what it does not bound.
  lemma UnderTheTimeouts(l: Limits, x: nat, body: nat)
    requires l.submit == l.landing == 60 && l.recovery == 30
    ensures (forall s | Reached(l, Initial(Draft(Some(x), body)), s) :: OneOwner(s) && NothingRevives(s, x)) <==>
            l.giveBack <= 120 && l.giveBack <= l.life && 60 <= l.life
  {
    OneOwnerIff(l, x, body);
    NothingRevivesIff(l, x, body);
  }
}
