/**
 * Every request that can touch one draft, as a transition system: the wizard's
 * loads and saves, the final submits of step 6, the recoveries, and the
 * database with its transactions (app/api/reports.py, create_report).
 *
 * A request is a number never used twice, which is also its claim's nonce. A
 * step says which request moves and carries whatever it draws or chooses, so a
 * run is a sequence of steps and every interleaving is one.
 */
module SubmitProtocol {
  import opened Options
  import opened DraftKeys

  // A transaction that has inserted the report. Issued: its COMMIT was sent;
  // it may still land or abort, whether or not its request is there to hear.
  datatype TxState = Open | Issued | Landed | Aborted
  datatype Tx = Tx(id: nat, number: nat, since: nat, state: TxState)

  // Where a submit stands between its claim and its end.
  datatype Phase =
    | Validating                         // checks, and the insert not yet made
    | Inserted                           // flushed; attachments being stored
    | Committing(number: nat)            // COMMIT issued, its reply awaited
    | Failed(ours: Option<nat>)          // an error; about to ask the database
    | Absent                             // no report, no COMMIT: give back
    | Settled(number: nat, mine: bool)   // the report exists: finish

  datatype Sight = Checked | Token(token: Draft) | LookedUp(token: Draft, found: Option<nat>)

  datatype Request =
    | Reading(raw: Draft)                // read a draft without an id
    | Editing(held: Draft)               // holds a loaded state
    | Submitting(claim: Draft, since: nat, spent: bool, phase: Phase)
    | Recovering(since: nat, sight: Sight)
    | Ended

  datatype State = State(
    now: nat,
    keys: Keys,
    rows: map<nat, nat>,                 // committed reports: id to case number
    txs: map<nat, Tx>,
    requests: map<nat, Request>)

  datatype Key = DraftKey | ClaimedKey | PendingKey | ResultKey | ReportIdKey

  datatype Step =
    | Load(p: nat)
    | Assign(p: nat, newId: nat)
    | Save(p: nat, body: nat)
    | Claim(p: nat)
    | Refuse(p: nat)
    | Insert(p: nat, number: nat)
    | IssueCommit(p: nat)
    | Land(p: nat)
    | Abort(p: nat)
    | Reply(p: nat)
    | Fail(p: nat)
    | Lookup(p: nat)
    | GiveBack(p: nat)
    | Finish(p: nat)
    | Crash(p: nat)
    | RecoverCheck(p: nat)
    | RecoverRead(p: nat)
    | RecoverLookup(p: nat)
    | RecoverEval(p: nat)
    | TakeResult
    | Tick(seconds: nat)
    | Restart
    | Expire(key: Key)

  // A draft just saved.
  function Initial(d: Draft): State {
    State(0, Keys(Some(Entry(d, SUBMISSION_TTL)), None, None, None, None), map[], map[], map[])
  }

  predicate In(s: State, p: nat, phase: Phase) {
    p in s.requests && s.requests[p].Submitting? && s.requests[p].phase == phase
  }

  predicate Sees(s: State, p: nat, sight: Sight) {
    p in s.requests && s.requests[p].Recovering? && s.requests[p].sight == sight
  }

  // What a lookup by primary key answers.
  function Row(s: State, id: Option<nat>): Option<nat> {
    if id.Some? && id.value in s.rows then Some(s.rows[id.value]) else None
  }

  // The unique indexes: a live transaction's row blocks a second insert too.
  predicate InsertFree(s: State, id: nat, number: nat) {
    && id !in s.rows && number !in s.rows.Values
    && forall q | q in s.txs && (s.txs[q].state.Open? || s.txs[q].state.Issued?) ::
         s.txs[q].id != id && s.txs[q].number != number
  }

  predicate Enabled(s: State, a: Step) {
    match a
    case Load(p) => p !in s.requests && s.keys.draft.Some?
    case Assign(p, _) => p in s.requests && s.requests[p].Reading?
    case Save(p, _) => p in s.requests && s.requests[p].Editing?
    case Claim(p) => p !in s.requests
    case Refuse(p) => In(s, p, Validating)
    case Insert(p, number) =>
      && In(s, p, Validating) && p !in s.txs
      && s.requests[p].claim.id.Some? && InsertFree(s, s.requests[p].claim.id.value, number)
    case IssueCommit(p) => In(s, p, Inserted) && p in s.txs && s.txs[p].state.Open?
    case Land(p) => p in s.txs && s.txs[p].state.Issued?
    case Abort(p) => p in s.txs && (s.txs[p].state.Open? || s.txs[p].state.Issued?)
    case Reply(p) =>
      && p in s.requests && s.requests[p].Submitting? && s.requests[p].phase.Committing?
      && p in s.txs && s.txs[p].state.Landed?
    case Fail(p) =>
      && p in s.requests && s.requests[p].Submitting? && s.requests[p].claim.id.Some?
      && (s.requests[p].phase.Validating? || s.requests[p].phase.Inserted? || s.requests[p].phase.Committing?)
    case Lookup(p) => p in s.requests && s.requests[p].Submitting? && s.requests[p].phase.Failed?
    case GiveBack(p) => In(s, p, Absent)
    case Finish(p) => p in s.requests && s.requests[p].Submitting? && s.requests[p].phase.Settled?
    case Crash(p) => p in s.requests
    case RecoverCheck(p) => p !in s.requests && s.keys.draft.None? && s.keys.pending.None?
    case RecoverRead(p) => Sees(s, p, Checked)
    case RecoverLookup(p) => p in s.requests && s.requests[p].Recovering? && s.requests[p].sight.Token?
    case RecoverEval(p) => p in s.requests && s.requests[p].Recovering? && s.requests[p].sight.LookedUp?
    case _ => true
  }

  // The request a step belongs to: it moves no other.
  function Mover(a: Step): Option<nat> {
    match a
    case TakeResult | Tick(_) | Restart | Expire(_) => None
    case _ => Some(a.p)
  }

  // The steps up to a submit's commit; those after it, and the recoveries', are
  // the others with a mover.
  predicate BeforeCommit(a: Step) {
    a.Load? || a.Assign? || a.Save? || a.Claim? || a.Refuse? || a.Insert? || a.IssueCommit?
  }

  lemma OthersStay(s: State, a: Step, p: nat)
    requires Enabled(s, a) && Mover(a) != Some(p)
    ensures var t := Apply(s, a);
            && (p in t.requests <==> p in s.requests) && (p in s.requests ==> t.requests[p] == s.requests[p])
            && (p in t.txs <==> p in s.txs) && (p in s.txs ==> t.txs[p] == s.txs[p])
  {
    hide Assigned, Claimed, GivenBack, Recovered, Finished;
  }

  // Rows change when a commit lands.
  lemma RowsChangeByLanding(s: State, a: Step)
    requires Enabled(s, a) && !a.Land?
    ensures Apply(s, a).rows == s.rows
  {
    hide Assigned, Claimed, GivenBack, Recovered, Finished;
  }

  function With(s: State, p: nat, r: Request): State {
    s.(requests := s.requests[p := r])
  }

  function At(s: State, p: nat, phase: Phase): State
    requires p in s.requests && s.requests[p].Submitting?
  {
    With(s, p, s.requests[p].(phase := phase))
  }

  function Apply(s: State, a: Step): State
    requires Enabled(s, a)
  {
    match a
    case Load(p) =>
      var d := s.keys.draft.value.value;
      With(s, p, if d.id.Some? then Editing(d) else Reading(d))
    case Assign(p, newId) =>
      // None: the draft changed or was spent meanwhile, and is read again.
      var (k, id) := Assigned(s.keys, s.requests[p].raw, newId, s.now);
      With(s.(keys := k), p, if id.Some? then Editing(s.requests[p].raw.(id := id)) else Ended)
    case Save(p, body) =>
      s.(keys := s.keys.(draft := Some(Entry(s.requests[p].held.(body := body), s.now + SUBMISSION_TTL))))
    case Claim(p) =>
      var (k, token) := Claimed(s.keys, p, s.now);
      With(s.(keys := k), p,
           if token.None? then Ended
           else Submitting(token.value, s.now, Row(s, token.value.id).Some?, Validating))
    case Refuse(p) =>
      // A draft without an id goes back at once; one that fails its checks
      // goes back and is saved again with the error.
      var claim := s.requests[p].claim;
      var (k, _) := GivenBack(s.keys, claim, p, s.now);
      With(s.(keys := k), p, if claim.id.Some? then Editing(claim) else Ended)
    case Insert(p, number) =>
      var tx := Tx(s.requests[p].claim.id.value, number, s.requests[p].since, Open);
      At(s.(txs := s.txs[p := tx]), p, Inserted)
    case IssueCommit(p) =>
      At(s.(txs := s.txs[p := s.txs[p].(state := Issued)]), p, Committing(s.txs[p].number))
    case Land(p) =>
      s.(txs := s.txs[p := s.txs[p].(state := Landed)], rows := s.rows[s.txs[p].id := s.txs[p].number])
    case Abort(p) =>
      s.(txs := s.txs[p := s.txs[p].(state := Aborted)])
    case Reply(p) => At(s, p, Settled(s.requests[p].phase.number, true))
    case Fail(p) =>
      var phase := s.requests[p].phase;
      At(s, p, Failed(if phase.Committing? then Some(phase.number) else None))
    case Lookup(p) =>
      var found, ours := Row(s, s.requests[p].claim.id), s.requests[p].phase.ours;
      if found.Some? then At(s, p, Settled(found.value, ours == found))
      else if ours.Some? then With(s, p, Ended)  // the COMMIT may still land
      else At(s, p, Absent)
    case GiveBack(p) =>
      var (k, done) := GivenBack(s.keys, s.requests[p].claim, p, s.now);
      With(s.(keys := k), p, if done then Editing(s.requests[p].claim) else Ended)
    case Finish(p) =>
      var phase := s.requests[p].phase;
      With(s.(keys := Finished(s.keys, p, if phase.mine then Some(phase.number) else None, s.now)), p, Ended)
    case Crash(p) => With(s, p, Ended)
    case RecoverCheck(p) => With(s, p, Recovering(s.now, Checked))
    case RecoverRead(p) =>
      With(s, p, if s.keys.claimed.None? then Ended
                 else s.requests[p].(sight := Token(s.keys.claimed.value.value)))
    case RecoverLookup(p) =>
      var token := s.requests[p].sight.token;
      With(s, p, s.requests[p].(sight := LookedUp(token, Row(s, token.id))))
    case RecoverEval(p) =>
      var sight := s.requests[p].sight;
      With(s.(keys := Recovered(s.keys, sight.token, sight.found, s.now).0), p, Ended)
    case TakeResult => s.(keys := s.keys.(result := None))
    case Tick(seconds) => s.(now := s.now + seconds)
    case Restart => s.(keys := s.keys.(draft := None, reportId := None))
    case Expire(key) => s.(keys := Without(s.keys, key))
  }

  function Without(k: Keys, key: Key): Keys {
    match key
    case DraftKey => k.(draft := None)
    case ClaimedKey => k.(claimed := None)
    case PendingKey => k.(pending := None)
    case ResultKey => k.(result := None)
    case ReportIdKey => k.(reportId := None)
  }

  predicate Run(s: State, steps: seq<Step>)
    decreases |steps|
  {
    steps == [] || (Enabled(s, steps[0]) && Run(Apply(s, steps[0]), steps[1..]))
  }

  function End(s: State, steps: seq<Step>): State
    requires Run(s, steps)
    decreases |steps|
  {
    if steps == [] then s else End(Apply(s, steps[0]), steps[1..])
  }
}
