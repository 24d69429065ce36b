/**
 * The five Redis keys of one wizard draft, and the Lua scripts that move them
 * (app/api/reports.py). Redis runs a script without interleaving, so each is
 * one atomic step; the step functions give the keys after it and its reply.
 */
module DraftKeys {
  import opened Options

  const SUBMISSION_TTL: nat := 7200
  const PENDING_TTL: nat := 120
  const RESULT_TTL: nat := 120

  // A sealed draft. `id` is absent in one saved before v2.0.0; `body` stands
  // for the answers, and for the token's randomness.
  datatype Draft = Draft(id: Option<nat>, body: nat)

  // What a key holds, and when it goes. RENAME moves both.
  datatype Entry<T> = Entry(value: T, expires: nat)

  datatype Keys = Keys(
    draft: Option<Entry<Draft>>,
    claimed: Option<Entry<Draft>>,
    pending: Option<Entry<nat>>,     // the nonce of the claim that set it
    result: Option<Entry<nat>>,      // the case number in the stored result
    reportId: Option<Entry<nat>>)

  // What GET answers.
  function Value<T>(e: Option<Entry<T>>): Option<T> {
    if e.Some? then Some(e.value.value) else None
  }

  predicate Due<T>(e: Option<Entry<T>>, now: nat) { e.Some? && e.value.expires <= now }

  function Assigned(k: Keys, raw: Draft, newId: nat, now: nat): (Keys, Option<nat>) {
    if Value(k.draft) != Some(raw) then (k, None)
    else if k.reportId.Some? then (k, Value(k.reportId))
    else (k.(reportId := Some(Entry(newId, now + SUBMISSION_TTL))), Some(newId))
  }

  function Claimed(k: Keys, nonce: nat, now: nat): (Keys, Option<Draft>) {
    if k.draft.None? || k.claimed.Some? then (k, None)
    else (k.(draft := None, claimed := k.draft, pending := Some(Entry(nonce, now + PENDING_TTL))), Value(k.draft))
  }

  function Recovered(k: Keys, token: Draft, found: Option<nat>, now: nat): (Keys, bool) {
    if k.pending.Some? || k.draft.Some? || Value(k.claimed) != Some(token) then (k, false)
    else if found.None? then (k.(draft := k.claimed, claimed := None), true)
    else (k.(claimed := None, reportId := None, result := Some(Entry(found.value, now + RESULT_TTL))), true)
  }

  // Whether another claim's "pending" is there.
  predicate HeldByAnother(k: Keys, nonce: nat) { k.pending.Some? && k.pending.value.value != nonce }

  function GivenBack(k: Keys, token: Draft, nonce: nat, now: nat): (Keys, bool) {
    if HeldByAnother(k, nonce) then (k, false)
    else (k.(draft := if k.draft.None? then Some(Entry(token, now + SUBMISSION_TTL)) else k.draft,
             claimed := None, pending := None), true)
  }

  function Finished(k: Keys, nonce: nat, result: Option<nat>, now: nat): Keys {
    var k' := if result.Some? then k.(result := Some(Entry(result.value, now + RESULT_TTL))) else k;
    if HeldByAnother(k', nonce) then k'
    else k'.(draft := None, claimed := None, pending := None, reportId := None)
  }

  /** The keys as Redis holds them, changed one command at a time. */
  class Store {
    var draft: Option<Entry<Draft>>
    var claimed: Option<Entry<Draft>>
    var pending: Option<Entry<nat>>
    var result: Option<Entry<nat>>
    var reportId: Option<Entry<nat>>

    function View(): Keys
      reads this
    {
      Keys(draft, claimed, pending, result, reportId)
    }

    // _ASSIGN_REPORT_ID: whoever loads an old draft gets the same id, and no
    // one gets an id for a draft that changed or was spent.
    method AssignReportId(raw: Draft, newId: nat, now: nat) returns (id: Option<nat>)
      modifies this`reportId
      ensures id.Some? <==> old(Value(draft)) == Some(raw)
      ensures id.Some? ==> id == Value(reportId)
      ensures id.Some? ==> reportId == old(if reportId.Some? then reportId else Some(Entry(newId, now + SUBMISSION_TTL)))
      ensures (View(), id) == Assigned(old(View()), raw, newId, now)
    {
      if Value(draft) != Some(raw) {
        return None;
      }
      if reportId == None { // SET ... NX
        reportId := Some(Entry(newId, now + SUBMISSION_TTL));
      }
      return Value(reportId);
    }

    // _CLAIM_DRAFT: exactly one submit gets the draft, with what is left of
    // its life.
    method ClaimDraft(nonce: nat, now: nat) returns (token: Option<Draft>)
      modifies this`draft, this`claimed, this`pending
      ensures token.Some? <==> old(draft.Some? && claimed.None?)
      ensures token.Some? ==> claimed == old(draft) && token == Value(claimed) && draft == None
      ensures token.Some? ==> pending == Some(Entry(nonce, now + 120))
      ensures (View(), token) == Claimed(old(View()), nonce, now)
    {
      if draft == None || claimed != None {
        return None;
      }
      claimed := draft; // RENAME
      draft := None;
      pending := Some(Entry(nonce, now + PENDING_TTL));
      return Value(claimed);
    }

    // _RECOVER_DRAFT: only once "pending" is gone, never over a draft, and
    // only for the claimed token whose report was looked up.
    method RecoverDraft(token: Draft, found: Option<nat>, now: nat) returns (done: bool)
      modifies this`draft, this`claimed, this`result, this`reportId
      ensures done <==> old(pending.None? && draft.None? && Value(claimed) == Some(token))
      ensures done && found.None? ==> draft == old(claimed) && claimed == None && result == old(result)
      ensures done && found.Some? ==> draft == None && claimed == None && result == Some(Entry(found.value, now + 120))
      ensures (View(), done) == Recovered(old(View()), token, found, now)
    {
      if pending != None || draft != None || Value(claimed) != Some(token) {
        return false;
      }
      if found == None {
        draft := claimed; // RENAME
        claimed := None;
      } else {
        claimed := None;
        reportId := None;
        result := Some(Entry(found.value, now + RESULT_TTL));
      }
      return true;
    }

    // _GIVE_BACK_DRAFT: never touches a newer claim, never overwrites a draft
    // that came back; the draft's life starts again.
    method GiveBackDraft(token: Draft, nonce: nat, now: nat) returns (done: bool)
      modifies this`draft, this`claimed, this`pending
      ensures done <==> old(pending.None? || pending.value.value == nonce)
      ensures done ==> claimed == None && pending == None
      ensures done ==> draft == if old(draft).Some? then old(draft) else Some(Entry(token, now + 7200))
      ensures (View(), done) == GivenBack(old(View()), token, nonce, now)
    {
      if pending != None && pending.value.value != nonce {
        return false;
      }
      if draft == None {
        draft := Some(Entry(token, now + SUBMISSION_TTL));
      }
      claimed := None;
      pending := None;
      return true;
    }

    // _FINISH_CLAIM: the draft is spent, unless a newer claim holds it.
    method FinishClaim(nonce: nat, outcome: Option<nat>, now: nat)
      modifies this
      ensures result == if outcome.Some? then Some(Entry(outcome.value, now + RESULT_TTL)) else old(result)
      ensures old(pending.Some? && pending.value.value != nonce) ==>
                View().(result := old(result)) == old(View())
      ensures old(pending.None? || pending.value.value == nonce) ==>
                View().(result := None) == Keys(None, None, None, None, None)
      ensures View() == Finished(old(View()), nonce, outcome, now)
    {
      if outcome != None {
        result := Some(Entry(outcome.value, now + RESULT_TTL));
      }
      if pending == None || pending.value.value == nonce {
        draft := None;
        claimed := None;
        pending := None;
        reportId := None;
      }
    }

    // _save_submission: the id is fixed at the first save and carried by
    // every later one, which saves a loaded state.
    method SaveSubmission(state: Draft, newId: nat, now: nat)
      modifies this`draft
      ensures draft.Some? && draft.value.value.id.Some? && draft.value.value.body == state.body
      ensures state.id.Some? ==> Value(draft) == Some(state)
      ensures draft.value.expires == now + 7200
    {
      draft := Some(Entry(if state.id.Some? then state else state.(id := Some(newId)), now + SUBMISSION_TTL));
    }
  }
}
