/**
 * Runs of the submission protocol within given time limits, built step by step:
 * a submit that commits, and the one way a spent draft comes back however
 * prompt everyone is.
 */
module SubmitRuns {
  import opened Options
  import opened DraftKeys
  import opened SubmitProtocol
  import opened SubmitTiming

  ghost predicate Reached(l: Limits, s0: State, s: State) {
    exists steps :: Run(s0, steps) && TimedRun(l, s0, steps) && End(s0, steps) == s
  }

  lemma Start(l: Limits, s0: State)
    ensures Reached(l, s0, s0)
  {
    assert Run(s0, []) && TimedRun(l, s0, []) && End(s0, []) == s0;
  }

  lemma {:induction false} RunThen(l: Limits, s: State, steps: seq<Step>, a: Step)
    requires Run(s, steps) && TimedRun(l, s, steps) && Timed(l, End(s, steps), a)
    ensures Run(s, steps + [a]) && TimedRun(l, s, steps + [a]) && End(s, steps + [a]) == Apply(End(s, steps), a)
    decreases |steps|
  {
    hide Apply, Enabled, Punctual, KeysInTime;
    if steps == [] {
      assert steps + [a] == [a] && [a][1..] == [];
    } else {
      RunThen(l, Apply(s, steps[0]), steps[1..], a);
      assert (steps + [a])[1..] == steps[1..] + [a];
    }
  }

  lemma Then(l: Limits, s0: State, s: State, a: Step)
    requires Reached(l, s0, s) && Timed(l, s, a)
    ensures Reached(l, s0, Apply(s, a)) && Punctual(l, Apply(s, a))
  {
    hide Apply, Enabled, Punctual, TimedRun, Run, End;
    var steps :| Run(s0, steps) && TimedRun(l, s0, steps) && End(s0, steps) == s;
    RunThen(l, s0, steps, a);
  }

  // Nobody is late and no key is past its time.
  ghost predicate Ready(l: Limits, s: State) { Punctual(l, s) && NoneDue(s) }

  // What p has under way began just now.
  ghost predicate JustBegan(s: State, p: nat) {
    && (p in s.requests && (s.requests[p].Submitting? || s.requests[p].Recovering?) ==> s.requests[p].since == s.now)
    && (p in s.txs && s.txs[p].state.Issued? ==> s.txs[p].since == s.now)
  }

  // One that did not move, or began just now, is not late.
  lemma StaysReady(l: Limits, s0: State, s: State, a: Step, p: nat, t: State)
    requires Reached(l, s0, s) && Ready(l, s) && Enabled(s, a) && Apply(s, a) == t
    requires !a.Tick? && !a.Expire? && !a.Restart? && (a.Claim? ==> Claimable(l, s))
    requires t.now == s.now && NoneDue(t) && JustBegan(t, p)
    requires forall q | q in t.requests && q != p :: q in s.requests && t.requests[q] == s.requests[q]
    requires forall q | q in t.txs && q != p :: q in s.txs && t.txs[q] == s.txs[q]
    ensures Reached(l, s0, t) && Ready(l, t)
  {
    hide Apply, Enabled, NoneDue, KeyDue, Due, Reached;
    assert Punctual(l, t);
    Then(l, s0, s, a);
  }

  // A draft that is there to be claimed, with life enough left.
  ghost predicate Claimable(l: Limits, s: State) {
    s.keys.draft.Some? && s.keys.claimed.None? && s.now + l.life <= s.keys.draft.value.expires
  }

  function AfterClaim(s: State, p: nat): State
    requires s.keys.draft.Some?
  {
    var d := s.keys.draft.value.value;
    s.(keys := s.keys.(draft := None, claimed := s.keys.draft, pending := Some(Entry(p, s.now + PENDING_TTL))),
       requests := s.requests[p := Submitting(d, s.now, Row(s, d.id).Some?, Validating)])
  }

  lemma ClaimIt(l: Limits, s0: State, s: State, p: nat)
    requires Reached(l, s0, s) && Ready(l, s) && Claimable(l, s) && p !in s.requests && p !in s.txs
    ensures Reached(l, s0, AfterClaim(s, p)) && Ready(l, AfterClaim(s, p))
  {
    hide Reached, Punctual;
    StaysReady(l, s0, s, Claim(p), p, AfterClaim(s, p));
  }

  function AfterInsert(s: State, p: nat, id: nat, number: nat): State
    requires p in s.requests && s.requests[p].Submitting?
  {
    s.(requests := s.requests[p := s.requests[p].(phase := Committing(number))],
       txs := s.txs[p := Tx(id, number, s.requests[p].since, Issued)])
  }

  // A submit inserts its report and issues the COMMIT.
  lemma IssueIt(l: Limits, s0: State, s: State, p: nat, id: nat, number: nat)
    requires Reached(l, s0, s) && Ready(l, s) && In(s, p, Validating) && JustBegan(s, p) && p !in s.txs
    requires s.requests[p].claim.id == Some(id) && InsertFree(s, id, number)
    ensures Reached(l, s0, AfterInsert(s, p, id, number)) && Ready(l, AfterInsert(s, p, id, number))
  {
    hide Reached, Punctual, InsertFree;
    var s1 := Apply(s, Insert(p, number));
    StaysReady(l, s0, s, Insert(p, number), p, s1);
    var t := Apply(s1, IssueCommit(p));
    StaysReady(l, s0, s1, IssueCommit(p), p, t);
    assert t.requests == AfterInsert(s, p, id, number).requests;
    assert t.txs == AfterInsert(s, p, id, number).txs;
    assert t == AfterInsert(s, p, id, number);
  }

  function AfterFinish(s: State, p: nat, number: nat): State {
    s.(keys := Keys(None, None, None, Some(Entry(number, s.now + RESULT_TTL)), None), requests := s.requests[p := Ended])
  }

  // The COMMIT goes through, and leaves only its result.
  lemma LandIt(l: Limits, s0: State, s: State, p: nat)
    requires Reached(l, s0, s) && Ready(l, s) && p in s.txs && s.txs[p].state.Issued? && JustBegan(s, p)
    requires In(s, p, Committing(s.txs[p].number)) && !HeldByAnother(s.keys, p)
    ensures var t := AfterFinish(Apply(s, Land(p)), p, s.txs[p].number);
            Reached(l, s0, t) && Ready(l, t)
  {
    hide Reached, Punctual;
    var s1 := Apply(s, Land(p));
    StaysReady(l, s0, s, Land(p), p, s1);
    FinishIt(l, s0, s1, p);
  }

  lemma FinishIt(l: Limits, s0: State, s: State, p: nat)
    requires Reached(l, s0, s) && Ready(l, s) && p in s.txs && s.txs[p].state.Landed? && JustBegan(s, p)
    requires In(s, p, Committing(s.txs[p].number)) && !HeldByAnother(s.keys, p)
    ensures var t := AfterFinish(s, p, s.txs[p].number);
            Reached(l, s0, t) && Ready(l, t)
  {
    hide Reached, Punctual;
    var s1 := Apply(s, Reply(p));
    StaysReady(l, s0, s, Reply(p), p, s1);
    var t := Apply(s1, Finish(p));
    StaysReady(l, s0, s1, Finish(p), p, t);
    assert t.requests == s.requests[p := Ended];
    assert t == AfterFinish(s, p, s.txs[p].number);
  }

  // One request claims a draft with an id, commits its report and finishes.
  lemma Commit(l: Limits, s0: State, s: State, p: nat, id: nat, number: nat) returns (t: State)
    requires Reached(l, s0, s) && Ready(l, s) && Claimable(l, s) && p !in s.requests && p !in s.txs
    requires s.keys.draft.value.value.id == Some(id) && InsertFree(s, id, number)
    ensures Reached(l, s0, t) && Ready(l, t)
    ensures t == State(s.now, Keys(None, None, None, Some(Entry(number, s.now + RESULT_TTL)), None), s.rows[id := number],
                       s.txs[p := Tx(id, number, s.now, Landed)], s.requests[p := Ended])
  {
    hide Reached, Punctual;
    ClaimIt(l, s0, s, p);
    var s1 := AfterClaim(s, p);
    assert InsertFree(s1, id, number);
    hide InsertFree;
    IssueIt(l, s0, s1, p, id, number);
    var s2 := AfterInsert(s1, p, id, number);
    LandIt(l, s0, s2, p);
    t := AfterFinish(Apply(s2, Land(p)), p, number);
    assert t.requests == s.requests[p := Ended];
    assert t.txs == s.txs[p := Tx(id, number, s.now, Landed)];
  }

  // A page that loaded the draft saves it after the report's commit; the next
  // claim takes the spent draft and, refused by its checks, gives it back.
  lemma SpentDraftCanBeGivenBack(l: Limits, x: nat, body: nat) returns (s: State, p: nat)
    ensures Reached(l, Initial(Draft(Some(x), body)), s)
    ensures && Enabled(s, Refuse(p)) && x in s.rows && s.keys.draft.None?
            && Value(Apply(s, Refuse(p)).keys.draft) == Some(Draft(Some(x), body))
  {
    var d := Draft(Some(x), body);
    var s0 := Initial(d);
    Start(l, s0);
    StaysReady(l, s0, s0, Load(0), 0, Apply(s0, Load(0)));
    var s1 := Commit(l, s0, Apply(s0, Load(0)), 1, x, 100);
    assert s1.requests[0] == Editing(d);
    var s2 := Apply(s1, Save(0, body));
    StaysReady(l, s0, s1, Save(0, body), 0, s2);
    ClaimIt(l, s0, s2, 2);
    s, p := AfterClaim(s2, 2), 2;
  }
}
