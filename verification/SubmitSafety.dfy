/**
 * What holds of the submission protocol in every run, however slow any request
 * is: one report, results that name it, and no draft lost before it exists.
 */
module SubmitSafety {
  import opened Options
  import opened DraftKeys
  import opened SubmitProtocol

  // What a request has learned about the database stays true.
  ghost predicate TruthfulRequest(s: State, p: nat, r: Request) {
    match r
    case Editing(held) => held.id.Some?
    case Submitting(claim, since, spent, phase) =>
      && (!phase.Validating? ==> claim.id.Some?)
      && (spent ==> Row(s, claim.id).Some? && !phase.Absent?)
      && (phase.Settled? ==> Row(s, claim.id) == Some(phase.number))
      && (phase.Inserted? || phase.Committing? ==> p in s.txs && claim.id == Some(s.txs[p].id))
      && (phase.Committing? ==> s.txs[p].number == phase.number)
    case Recovering(_, LookedUp(token, found)) => found.Some? ==> Row(s, token.id) == found
    case _ => true
  }

  ghost predicate Live(t: Tx) { t.state.Open? || t.state.Issued? }

  ghost predicate TruthfulTx(s: State, p: nat, t: Tx) {
    && (t.state.Landed? ==> Row(s, Some(t.id)) == Some(t.number))
    && (Live(t) ==> t.id !in s.rows)
    && (Live(t) ==> forall q | q in s.txs && Live(s.txs[q]) && s.txs[q].id == t.id :: q == p)
  }

  ghost predicate Truthful(s: State) {
    && (forall p | p in s.requests :: TruthfulRequest(s, p, s.requests[p]))
    && (forall p | p in s.txs :: TruthfulTx(s, p, s.txs[p]))
    && (s.keys.result.Some? ==> s.keys.result.value.value in s.rows.Values)
  }

  // A committed report stays, under the same case number.
  lemma RowsOnlyGrow(s: State, a: Step)
    requires Truthful(s) && Enabled(s, a)
    ensures forall id | id in s.rows :: id in Apply(s, a).rows && Apply(s, a).rows[id] == s.rows[id]
    ensures forall n | n in s.rows.Values :: n in Apply(s, a).rows.Values
  {
    var t := Apply(s, a);
    assert forall id | id in s.rows :: id in t.rows && t.rows[id] == s.rows[id];
    forall n | n in s.rows.Values ensures n in t.rows.Values {
      var id :| id in s.rows && s.rows[id] == n;
      assert id in t.rows && t.rows[id] == n;
    }
  }

  // A request that did not move: what it has learned is still so.
  lemma BystanderStaysTruthful(s: State, t: State, p: nat, r: Request)
    requires TruthfulRequest(s, p, r)
    requires forall id | id in s.rows :: id in t.rows && t.rows[id] == s.rows[id]
    requires p in s.txs ==> p in t.txs && t.txs[p].id == s.txs[p].id && t.txs[p].number == s.txs[p].number
    ensures TruthfulRequest(t, p, r)
  {
  }

  lemma RequestsStayTruthful(s: State, a: Step, p: nat)
    requires Truthful(s) && Enabled(s, a) && p in Apply(s, a).requests
    ensures TruthfulRequest(Apply(s, a), p, Apply(s, a).requests[p])
  {
    hide Apply, Enabled, TruthfulRequest, TruthfulTx;
    RowsOnlyGrow(s, a);
    if Mover(a) != Some(p) {
      OthersStay(s, a, p);
      BystanderStaysTruthful(s, Apply(s, a), p, s.requests[p]);
    } else {
      MoverStaysTruthful(s, a, p);
    }
  }

  lemma MoverStaysTruthful(s: State, a: Step, p: nat)
    requires Truthful(s) && Enabled(s, a) && Mover(a) == Some(p) && p in Apply(s, a).requests
    ensures TruthfulRequest(Apply(s, a), p, Apply(s, a).requests[p])
  {
    hide Apply, Enabled, TruthfulRequest, TruthfulTx;
    if BeforeCommit(a) {
      MoverBeforeCommit(s, a, p);
    } else {
      MoverAfterCommit(s, a, p);
    }
  }

  lemma MoverBeforeCommit(s: State, a: Step, p: nat)
    requires Truthful(s) && Enabled(s, a) && Mover(a) == Some(p) && p in Apply(s, a).requests && BeforeCommit(a)
    ensures TruthfulRequest(Apply(s, a), p, Apply(s, a).requests[p])
  {
    hide InsertFree, Recovered, Finished;
    assert p in s.requests ==> TruthfulRequest(s, p, s.requests[p]);
    assert p in s.txs ==> TruthfulTx(s, p, s.txs[p]);
  }

  lemma MoverAfterCommit(s: State, a: Step, p: nat)
    requires Truthful(s) && Enabled(s, a) && Mover(a) == Some(p) && p in Apply(s, a).requests && !BeforeCommit(a)
    ensures TruthfulRequest(Apply(s, a), p, Apply(s, a).requests[p])
  {
    hide InsertFree, Recovered, Finished;
    assert p in s.requests ==> TruthfulRequest(s, p, s.requests[p]);
    assert p in s.txs ==> TruthfulTx(s, p, s.txs[p]);
  }

  lemma TxsStayTruthful(s: State, a: Step, p: nat)
    requires Truthful(s) && Enabled(s, a) && p in Apply(s, a).txs
    ensures TruthfulTx(Apply(s, a), p, Apply(s, a).txs[p])
  {
    RowsOnlyGrow(s, a);
    if p in s.txs {
      assert TruthfulTx(s, p, s.txs[p]);
    }
    forall q | q in s.txs ensures TruthfulTx(s, q, s.txs[q]) {
    }
  }

  lemma StaysTruthful(s: State, a: Step)
    requires Truthful(s) && Enabled(s, a)
    ensures Truthful(Apply(s, a))
  {
    var t := Apply(s, a);
    forall p | p in t.requests ensures TruthfulRequest(t, p, t.requests[p]) {
      RequestsStayTruthful(s, a, p);
    }
    forall p | p in t.txs ensures TruthfulTx(t, p, t.txs[p]) {
      TxsStayTruthful(s, a, p);
    }
    RowsOnlyGrow(s, a);
    ResultStaysTruthful(s, a);
  }

  lemma ResultStaysTruthful(s: State, a: Step)
    requires Truthful(s) && Enabled(s, a)
    ensures Apply(s, a).keys.result.Some? ==> Apply(s, a).keys.result.value.value in Apply(s, a).rows.Values
  {
    RowsOnlyGrow(s, a);
    if a.Finish? {
      assert TruthfulRequest(s, a.p, s.requests[a.p]);
      assert s.rows[s.requests[a.p].claim.id.value] in s.rows.Values;
    } else if a.RecoverEval? {
      assert TruthfulRequest(s, a.p, s.requests[a.p]);
      if s.requests[a.p].sight.found.Some? {
        assert s.rows[s.requests[a.p].sight.token.id.value] in s.rows.Values;
      }
    }
  }

  // Every copy of the draft carries the id x: the keys, every request's copy,
  // every transaction, every row.
  ghost predicate Copy(d: Option<Entry<Draft>>, x: nat) { d.Some? ==> d.value.value.id == Some(x) }

  ghost predicate CopiesOf(r: Request, x: nat) {
    match r
    case Reading(_) => false
    case Editing(held) => held.id == Some(x)
    case Submitting(claim, _, _, _) => claim.id == Some(x)
    case Recovering(_, sight) => !sight.Checked? ==> sight.token.id == Some(x)
    case Ended => true
  }

  ghost predicate OneId(s: State, x: nat) {
    && Copy(s.keys.draft, x) && Copy(s.keys.claimed, x)
    && (forall p | p in s.requests :: CopiesOf(s.requests[p], x))
    && (forall p | p in s.txs :: s.txs[p].id == x)
    && (forall id | id in s.rows :: id == x)
  }

  lemma StaysOneId(s: State, a: Step, x: nat)
    requires OneId(s, x) && Enabled(s, a)
    ensures OneId(Apply(s, a), x)
  {
    var t := Apply(s, a);
    forall p | p in t.requests ensures CopiesOf(t.requests[p], x) {
    }
  }

  lemma {:induction false} RunKeepsOneId(s: State, steps: seq<Step>, x: nat)
    requires Truthful(s) && OneId(s, x) && Run(s, steps)
    ensures Truthful(End(s, steps)) && OneId(End(s, steps), x)
    decreases |steps|
  {
    if steps != [] {
      StaysTruthful(s, steps[0]);
      StaysOneId(s, steps[0], x);
      RunKeepsOneId(Apply(s, steps[0]), steps[1..], x);
    }
  }

  // One draft yields at most one report, and a stored result names it.
  lemma AtMostOneReport(x: nat, body: nat, steps: seq<Step>)
    requires Run(Initial(Draft(Some(x), body)), steps)
    ensures var s := End(Initial(Draft(Some(x), body)), steps);
            && s.rows.Keys <= {x}
            && (s.keys.result.Some? ==> x in s.rows && s.rows[x] == s.keys.result.value.value)
  {
    RunKeepsOneId(Initial(Draft(Some(x), body)), steps, x);
  }

  // Only time and the reporter's restart take a draft away; a saved copy of a
  // draft that is away may be lost with it.
  predicate TakesDraftAway(a: Step) {
    a == Expire(DraftKey) || a == Expire(ClaimedKey) || a.Restart?
  }

  ghost predicate Kept(s: State) {
    && (s.rows == map[] ==> s.keys.draft.Some? || s.keys.claimed.Some?)
    && (s.keys.pending.Some? ==> s.keys.claimed.Some?)
  }

  lemma StaysKept(s: State, a: Step)
    requires Truthful(s) && Kept(s) && Enabled(s, a) && !TakesDraftAway(a)
    ensures Kept(Apply(s, a))
  {
    RowsOnlyGrow(s, a);
  }

  lemma {:induction false} RunStaysKept(s: State, steps: seq<Step>)
    requires Truthful(s) && Kept(s) && Run(s, steps)
    requires forall i | 0 <= i < |steps| :: !TakesDraftAway(steps[i])
    ensures Truthful(End(s, steps)) && Kept(End(s, steps))
    decreases |steps|
  {
    if steps != [] {
      assert !TakesDraftAway(steps[0]);
      StaysTruthful(s, steps[0]);
      StaysKept(s, steps[0]);
      RunStaysKept(Apply(s, steps[0]), steps[1..]);
    }
  }

  // No draft is lost: until a report is committed, the draft key or the
  // claimed key holds the draft; "pending" never outlives the claimed key.
  lemma NoDraftLost(d: Draft, steps: seq<Step>)
    requires Run(Initial(d), steps)
    requires forall i | 0 <= i < |steps| :: !TakesDraftAway(steps[i])
    ensures var s := End(Initial(d), steps);
            && (s.rows == map[] ==> s.keys.draft.Some? || s.keys.claimed.Some?)
            && (s.keys.pending.Some? ==> s.keys.claimed.Some?)
  {
    RunStaysKept(Initial(d), steps);
  }

  // Only a request that knows the report is committed deletes the last copy.
  lemma LastCopyGoesToTheCommitted(s: State, a: Step)
    requires Truthful(s) && Enabled(s, a) && !TakesDraftAway(a)
    requires s.keys.draft.Some? || s.keys.claimed.Some?
    requires var k := Apply(s, a).keys; k.draft.None? && k.claimed.None?
    ensures || (a.Finish? && Row(s, s.requests[a.p].claim.id) == Some(s.requests[a.p].phase.number))
            || (a.RecoverEval? && s.requests[a.p].sight.found.Some?
                && Row(s, s.requests[a.p].sight.token.id) == s.requests[a.p].sight.found)
  {
    assert a.Finish? || a.RecoverEval?;
    assert TruthfulRequest(s, a.p, s.requests[a.p]);
  }
}
