/**
 * What a submit that finishes leaves behind (app/api/reports.py, create_report):
 * the result of its own report, also where the reply to its COMMIT was lost,
 * and nothing where another submit made the report.
 */
module SubmitResults {
  import opened Options
  import opened DraftKeys
  import opened SubmitProtocol
  import opened SubmitSafety

  // The requests that have sent their COMMIT.
  function Issuers(steps: seq<Step>): set<nat> {
    set i | 0 <= i < |steps| && steps[i].IssueCommit? :: steps[i].p
  }

  // The report that is there is the one p's COMMIT was sent for.
  ghost predicate IsItsOwn(s: State, issued: set<nat>, p: nat, id: Option<nat>) {
    p in issued && p in s.txs && Row(s, id) == Some(s.txs[p].number)
  }

  ghost predicate Remembers(s: State, issued: set<nat>, p: nat) {
    p in s.requests && s.requests[p].Submitting? ==>
      match s.requests[p].phase
      case Committing(number) => p in issued && p in s.txs && s.requests[p].claim.id == Some(s.txs[p].id)
      case Failed(ours) =>
        (p in issued <==> ours.Some?) && (ours.Some? ==> p in s.txs && s.requests[p].claim.id == Some(s.txs[p].id) && ours == Some(s.txs[p].number))
      case Settled(number, mine) => mine <==> IsItsOwn(s, issued, p, s.requests[p].claim.id)
      case _ => p !in issued
  }

  ghost predicate AllRemember(s: State, issued: set<nat>) {
    forall p :: Remembers(s, issued, p) && TxRemembers(s, issued, p)
  }

  function Noted(issued: set<nat>, a: Step): set<nat> { if a.IssueCommit? then issued + {a.p} else issued }

  lemma RemembersOn(s: State, issued: set<nat>, a: Step, p: nat)
    requires Truthful(s) && AllRemember(s, issued) && Enabled(s, a)
    ensures Remembers(Apply(s, a), Noted(issued, a), p)
  {
    assert Remembers(s, issued, p);
    if Mover(a) != Some(p) {
      BystanderRemembers(s, issued, a, p);
    } else if BeforeCommit(a) {
      assert p in s.requests ==> TruthfulRequest(s, p, s.requests[p]);
      hide AllRemember, Truthful, Remembers;
      MoverBeforeCommit(s, issued, a, p);
    } else {
      assert p in s.requests ==> TruthfulRequest(s, p, s.requests[p]);
      hide AllRemember, Truthful, Remembers;
      MoverAfterCommit(s, issued, a, p);
    }
  }

  lemma BystanderRemembers(s: State, issued: set<nat>, a: Step, p: nat)
    requires Truthful(s) && Remembers(s, issued, p) && Enabled(s, a) && Mover(a) != Some(p)
    ensures Remembers(Apply(s, a), Noted(issued, a), p)
  {
    RowsOnlyGrow(s, a);
    OthersStay(s, a, p);
    assert p in s.requests ==> TruthfulRequest(s, p, s.requests[p]);
    hide Apply, Enabled, Truthful;
  }

  lemma MoverBeforeCommit(s: State, issued: set<nat>, a: Step, p: nat)
    requires Remembers(s, issued, p) && (p in issued ==> p in s.requests) && Enabled(s, a)
    requires p in s.requests ==> TruthfulRequest(s, p, s.requests[p])
    requires Mover(a) == Some(p) && BeforeCommit(a)
    ensures Remembers(Apply(s, a), Noted(issued, a), p)
  {
    hide Assigned, Claimed, GivenBack, InsertFree;
  }

  lemma MoverAfterCommit(s: State, issued: set<nat>, a: Step, p: nat)
    requires Remembers(s, issued, p) && (p in issued ==> p in s.requests && p in s.txs) && Enabled(s, a)
    requires p in s.txs && s.txs[p].state.Landed? ==> Row(s, Some(s.txs[p].id)) == Some(s.txs[p].number)
    requires p in s.requests ==> TruthfulRequest(s, p, s.requests[p])
    requires Mover(a) == Some(p) && !BeforeCommit(a) && (a.Land? ==> s.txs[p].id !in s.rows)
    ensures Remembers(Apply(s, a), Noted(issued, a), p)
  {
    hide GivenBack, Recovered, Finished, InsertFree;
  }

  ghost predicate TxRemembers(s: State, issued: set<nat>, p: nat) {
    && (p in issued ==> p in s.requests && p in s.txs)
    && (p in s.txs && (s.txs[p].state.Issued? || s.txs[p].state.Landed?) ==> p in issued)
    && (p in s.txs && p !in issued ==> s.txs[p].state.Open? || s.txs[p].state.Aborted?)
  }

  lemma TxRemembersOn(s: State, issued: set<nat>, a: Step, p: nat)
    requires TxRemembers(s, issued, p) && Enabled(s, a)
    ensures TxRemembers(Apply(s, a), Noted(issued, a), p)
  {
    if Mover(a) != Some(p) {
      OthersStay(s, a, p);
      hide Apply, Enabled;
    } else {
      hide Assigned, Claimed, GivenBack, Recovered, Finished, InsertFree;
    }
  }

  lemma AllRememberOn(s: State, issued: set<nat>, a: Step)
    requires Truthful(s) && AllRemember(s, issued) && Enabled(s, a)
    ensures AllRemember(Apply(s, a), Noted(issued, a))
  {
    hide Remembers, Truthful, Apply, Enabled;
    forall p ensures Remembers(Apply(s, a), Noted(issued, a), p) && TxRemembers(Apply(s, a), Noted(issued, a), p) {
      RemembersOn(s, issued, a, p);
      TxRemembersOn(s, issued, a, p);
    }
  }

  lemma {:induction false} RunRemembers(s: State, issued: set<nat>, steps: seq<Step>)
    requires Truthful(s) && AllRemember(s, issued) && Run(s, steps)
    ensures Truthful(End(s, steps)) && AllRemember(End(s, steps), issued + Issuers(steps))
    decreases |steps|
  {
    hide Truthful, AllRemember, Apply, Enabled;
    if steps == [] {
      assert issued + Issuers(steps) == issued;
    } else {
      StaysTruthful(s, steps[0]);
      AllRememberOn(s, issued, steps[0]);
      RunRemembers(Apply(s, steps[0]), Noted(issued, steps[0]), steps[1..]);
      FirstAndRest(issued, steps);
    }
  }

  lemma FirstAndRest(issued: set<nat>, steps: seq<Step>)
    requires steps != []
    ensures Noted(issued, steps[0]) + Issuers(steps[1..]) == issued + Issuers(steps)
  {
    forall i | 0 <= i < |steps| && steps[i].IssueCommit?
      ensures steps[i].p in Noted(issued, steps[0]) + Issuers(steps[1..])
    {
      if i > 0 {
        assert steps[1..][i - 1] == steps[i];
      }
    }
  }

  lemma ReachedRemembers(d: Draft, steps: seq<Step>)
    requires Run(Initial(d), steps)
    ensures Truthful(End(Initial(d), steps)) && AllRemember(End(Initial(d), steps), Issuers(steps))
  {
    RunRemembers(Initial(d), {}, steps);
    assert {} + Issuers(steps) == Issuers(steps);
  }

  // ── What may go wrong ─────────────────────────────────────────────

  // A submit can fail at any point up to the reply, having sent its COMMIT or
  // not; its transaction can be rolled back until it has landed, and land from
  // when its COMMIT is sent; and any request can end where it is.
  lemma AnythingMayFail(s: State, p: nat)
    ensures p in s.requests && s.requests[p].Submitting? && s.requests[p].claim.id.Some? ==>
              var phase := s.requests[p].phase;
              && (phase == Validating || phase == Inserted ==> Enabled(s, Fail(p)) && In(Apply(s, Fail(p)), p, Failed(None)))
              && (phase.Committing? ==> Enabled(s, Fail(p)) && In(Apply(s, Fail(p)), p, Failed(Some(phase.number))))
    ensures p in s.txs && (s.txs[p].state == Open || s.txs[p].state == Issued) ==>
              Enabled(s, Abort(p)) && Apply(s, Abort(p)) == s.(txs := s.txs[p := s.txs[p].(state := Aborted)])
    ensures p in s.txs && s.txs[p].state == Issued ==> Enabled(s, Land(p))
    ensures p in s.requests ==> Enabled(s, Crash(p)) && Apply(s, Crash(p)) == s.(requests := s.requests[p := Ended])
  {
    hide InsertFree;
  }

  // A submit that gives its draft back goes on to save it with the error, unless
  // a newer claim holds it; one refused by its checks does so with every draft
  // that has an id.
  lemma GivingBackAlone(s: State, p: nat)
    ensures In(s, p, Absent) ==>
              var t := Apply(s, GiveBack(p));
              && t.requests[p] == (if HeldByAnother(s.keys, p) then Ended else Editing(s.requests[p].claim))
              && t == s.(keys := t.keys, requests := t.requests)
    ensures In(s, p, Validating) ==>
              var t := Apply(s, Refuse(p));
              && t.requests[p] == (if s.requests[p].claim.id.None? then Ended else Editing(s.requests[p].claim))
              && t == s.(keys := t.keys, requests := t.requests)
  {
  }

  // ── Case numbers ──────────────────────────────────────────────────

  // No two reports share a case number, committed or under way.
  ghost predicate Distinct(s: State) {
    && (forall i, j | i in s.rows && j in s.rows && s.rows[i] == s.rows[j] :: i == j)
    && (forall p | p in s.txs && Live(s.txs[p]) :: s.txs[p].number !in s.rows.Values)
    && (forall p, q | p in s.txs && q in s.txs && Live(s.txs[p]) && Live(s.txs[q]) && s.txs[p].number == s.txs[q].number :: p == q)
  }

  lemma LandStaysDistinct(s: State, p: nat)
    requires Distinct(s) && Enabled(s, Land(p))
    ensures Distinct(Apply(s, Land(p)))
  {
    var t := Apply(s, Land(p));
    hide Apply, Enabled;
    assert t.rows.Values <= s.rows.Values + {s.txs[p].number};
    forall i, j | i in t.rows && j in t.rows && t.rows[i] == t.rows[j] ensures i == j {
      assert i != s.txs[p].id ==> t.rows[i] in s.rows.Values;
      assert j != s.txs[p].id ==> t.rows[j] in s.rows.Values;
    }
  }

  // A transaction stands where it stood, or is new.
  lemma StaysLive(s: State, a: Step, p: nat)
    requires Enabled(s, a) && p in Apply(s, a).txs && Live(Apply(s, a).txs[p]) && a != Insert(p, Apply(s, a).txs[p].number)
    ensures p in s.txs && Live(s.txs[p]) && s.txs[p].number == Apply(s, a).txs[p].number
  {
    hide Assigned, Claimed, GivenBack, Recovered, Finished, InsertFree;
  }

  lemma InsertIsNew(s: State, p: nat, number: nat)
    requires Enabled(s, Insert(p, number))
    ensures number !in s.rows.Values && forall q | q in s.txs && Live(s.txs[q]) :: s.txs[q].number != number
  {
    hide Apply;
  }

  lemma StaysDistinct(s: State, a: Step)
    requires Distinct(s) && Enabled(s, a)
    ensures Distinct(Apply(s, a))
  {
    if a.Land? {
      LandStaysDistinct(s, a.p);
    } else {
      hide Apply, Enabled;
      var t := Apply(s, a);
      RowsChangeByLanding(s, a);
      if a.Insert? {
        InsertIsNew(s, a.p, a.number);
      }
      forall p | p in t.txs && Live(t.txs[p]) && a != Insert(p, t.txs[p].number)
        ensures p in s.txs && Live(s.txs[p]) && s.txs[p].number == t.txs[p].number
      {
        StaysLive(s, a, p);
      }
    }
  }

  lemma {:induction false} RunStaysDistinct(s: State, steps: seq<Step>)
    requires Distinct(s) && Run(s, steps)
    ensures Distinct(End(s, steps))
    decreases |steps|
  {
    if steps != [] {
      StaysDistinct(s, steps[0]);
      hide Apply, Enabled, Distinct;
      RunStaysDistinct(Apply(s, steps[0]), steps[1..]);
    }
  }

  // In every run each report has a case number of its own.
  lemma CaseNumbersAreUnique(d: Draft, steps: seq<Step>, i: nat, j: nat)
    requires Run(Initial(d), steps)
    requires var rows := End(Initial(d), steps).rows; i in rows && j in rows && rows[i] == rows[j]
    ensures i == j
  {
    RunStaysDistinct(Initial(d), steps);
  }

  // ── What a submit leaves ──────────────────────────────────────────

  // A submit that finishes stores the result exactly if the report that is
  // there is the one it sent its COMMIT for, whether it heard of that or not;
  // otherwise the result that was stored stays.
  lemma FinishStoresItsOwn(d: Draft, steps: seq<Step>, p: nat)
    requires Run(Initial(d), steps) && Enabled(End(Initial(d), steps), Finish(p))
    ensures var s := End(Initial(d), steps); var id := s.requests[p].claim.id;
            && Row(s, id).Some?
            && Apply(s, Finish(p)).keys.result ==
               (if IsItsOwn(s, Issuers(steps), p, id) then Some(Entry(Row(s, id).value, s.now + 120)) else s.keys.result)
  {
    ReachedRemembers(d, steps);
    var s := End(Initial(d), steps);
    assert TruthfulRequest(s, p, s.requests[p]) && Remembers(s, Issuers(steps), p);
  }

  // The database decides what a failed submit does next: it finishes exactly if
  // the report is there, gives the draft back exactly if it is not and no COMMIT
  // was sent, and leaves the rest to a recovery; the keys stay as they are.
  lemma LookupDecides(d: Draft, steps: seq<Step>, p: nat)
    requires Run(Initial(d), steps) && Enabled(End(Initial(d), steps), Lookup(p))
    ensures var s := End(Initial(d), steps); var t := Apply(s, Lookup(p)); var found := Row(s, s.requests[p].claim.id);
            && t.keys == s.keys
            && (Enabled(t, Finish(p)) <==> found.Some?)
            && (Enabled(t, GiveBack(p)) <==> found.None? && p !in Issuers(steps))
            && (t.requests[p].Ended? <==> found.None? && p in Issuers(steps))
  {
    ReachedRemembers(d, steps);
    var s := End(Initial(d), steps);
    assert Remembers(s, Issuers(steps), p);
  }

  // A COMMIT that landed without a reply: the lookup finds the report, and the
  // finish stores its case number.
  lemma ALostReplyIsMadeGood(d: Draft, steps: seq<Step>, p: nat)
    requires Run(Initial(d), steps) && Enabled(End(Initial(d), steps), Lookup(p))
    requires var s := End(Initial(d), steps); p in s.txs && s.txs[p].state.Landed?
    ensures var s := End(Initial(d), steps); var t := Apply(s, Lookup(p));
            && Enabled(t, Finish(p))
            && Value(Apply(t, Finish(p)).keys.result) == Some(s.txs[p].number)
  {
    ReachedRemembers(d, steps);
    var s := End(Initial(d), steps);
    assert TruthfulTx(s, p, s.txs[p]) && Remembers(s, Issuers(steps), p);
    LookupDecides(d, steps, p);
  }
}
