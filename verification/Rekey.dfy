/**
 * The job that moves attachment objects to bare UUID keys and encrypts those
 * stored in the clear (rekey_legacy_objects in app/services/attachment.py):
 * one run of it as a loop, and any number of overlapping runs step by step.
 */
module Rekey {
  import opened Options

  datatype Key = Uuid(n: nat) | Name(name: string)

  // What an object holds. A token was sealed with a report's data key.
  datatype Blob = Data(bytes: string) | Token(dek: nat, inner: Blob)

  datatype Row = Row(key: Key, encrypted: bool)

  datatype ReadError = NotFound | NoKey | Undecryptable

  // read_attachment: the object under the row's key, decrypted if the row says so.
  function Read(objects: map<Key, Blob>, row: Row, dek: Option<nat>): Result<Blob, ReadError> {
    if row.key !in objects then Err(NotFound)
    else if !row.encrypted then Ok(objects[row.key])
    else if dek.None? then Err(NoKey)
    else match objects[row.key]
         case Token(d, inner) => if d == dek.value then Ok(inner) else Err(Undecryptable)
         case Data(_) => Err(Undecryptable)
  }

  // An object in the clear reads as it is, an encrypted one as what was sealed in
  // it under the report's key; nothing else reads.
  lemma ReadsIff(objects: map<Key, Blob>, row: Row, dek: Option<nat>, blob: Blob)
    ensures Read(objects, row, dek) == Ok(blob) <==>
            row.key in objects
            && if row.encrypted then dek.Some? && objects[row.key] == Token(dek.value, blob) else objects[row.key] == blob
  {
  }

  predicate NeedsMove(row: Row) { !(row.key.Uuid? && row.encrypted) }

  // What the new object holds, given the old one.
  function Moved(row: Row, dek: nat, blob: Blob): Blob { if row.encrypted then blob else Token(dek, blob) }

  // Can this row be moved: is its object there, and the key to seal it with?
  predicate Movable(rows: map<nat, Row>, objects: map<Key, Blob>, deks: map<nat, nat>, r: nat) {
    && r in rows && NeedsMove(rows[r]) && rows[r].key in objects
    && (rows[r].encrypted || r in deks)
  }

  // The table and the bucket at some moment, and the reports' data keys.
  datatype Store = Store(rows: map<nat, Row>, objects: map<Key, Blob>, deks: map<nat, nat>) {
    function Dek(r: nat): Option<nat> { if r in deks then Some(deks[r]) else None }

    function ReadRow(r: nat): Result<Blob, ReadError>
      requires r in rows
    {
      Read(objects, rows[r], Dek(r))
    }

    function RowKeys(): set<Key> { set r | r in rows :: rows[r].key }

    // No two rows name the same object.
    ghost predicate OwnKeys() {
      forall r, q | r in rows && q in rows && rows[r].key == rows[q].key :: r == q
    }
  }

  // ── One run ───────────────────────────────────────────────────────

  // What a run meets: a new key for each row, and the rows whose copy or whose
  // old object's deletion fails.
  datatype Luck = Luck(newKeys: map<nat, Key>, copyFails: set<nat>, deleteFails: set<nat>) {
    ghost predicate Suits(t: Store) {
      && newKeys.Keys == t.rows.Keys
      && (forall r | r in newKeys :: newKeys[r].Uuid? && newKeys[r] !in t.objects && newKeys[r] !in t.RowKeys())
      && (forall r, q | r in newKeys && q in newKeys && newKeys[r] == newKeys[q] :: r == q)
    }
  }

  predicate Moves(t: Store, luck: Luck, r: nat) {
    Movable(t.rows, t.objects, t.deks, r) && r !in luck.copyFails
  }

  // One row's turn.
  function Turn(t: Store, luck: Luck, r: nat): Store
    requires r in t.rows && r in luck.newKeys
  {
    if !Moves(t, luck, r) then t
    else
      var former, own := t.rows[r].key, luck.newKeys[r];
      var blob := Moved(t.rows[r], if r in t.deks then t.deks[r] else 0, t.objects[former]);
      var objects := t.objects[own := blob];
      t.(rows := t.rows[r := Row(own, true)], objects := if r in luck.deleteFails then objects else objects - {former})
  }

  ghost predicate Untouched(t0: Store, t: Store, r: nat)
    requires r in t0.rows && r in t.rows
  {
    var key := t0.rows[r].key;
    && t.rows[r] == t0.rows[r]
    && (key in t.objects <==> key in t0.objects)
    && (key in t.objects ==> t.objects[key] == t0.objects[key])
  }

  ghost predicate Done(t0: Store, t: Store, luck: Luck, r: nat)
    requires r in t0.rows && r in t.rows && r in luck.newKeys
  {
    if Moves(t0, luck, r) then
      && t.rows[r] == Row(luck.newKeys[r], true)
      && t.rows[r].key in t.objects
      && t.objects[t.rows[r].key] == Moved(t0.rows[r], if r in t.deks then t.deks[r] else 0, t0.objects[t0.rows[r].key])
      && (r !in luck.deleteFails ==> t0.rows[r].key !in t.objects)
    else Untouched(t0, t, r)
  }

  ghost predicate Progress(t0: Store, t: Store, luck: Luck, done: set<nat>) {
    && t.deks == t0.deks && t.rows.Keys == t0.rows.Keys && luck.newKeys.Keys == t0.rows.Keys
    && forall r | r in t.rows :: if r in done then Done(t0, t, luck, r) else Untouched(t0, t, r)
  }

  lemma TurnProgresses(t0: Store, t: Store, luck: Luck, done: set<nat>, r: nat)
    requires t0.OwnKeys() && luck.Suits(t0) && Progress(t0, t, luck, done) && r in t.rows && r !in done
    ensures Progress(t0, Turn(t, luck, r), luck, done + {r})
    ensures Moves(t, luck, r) <==> Moves(t0, luck, r)
  {
    assert Untouched(t0, t, r);
    forall q | q in t.rows && q != r
      ensures if q in done then Done(t0, Turn(t, luck, r), luck, q) else Untouched(t0, Turn(t, luck, r), q)
    {
      OthersSettled(t0, t, luck, q, r, q in done);
    }
    TurnIsDone(t0, t, luck, r);
    hide Done, Untouched, Moves;
  }

  lemma TurnIsDone(t0: Store, t: Store, luck: Luck, r: nat)
    requires luck.Suits(t0) && t.deks == t0.deks && r in t.rows && r in t0.rows && Untouched(t0, t, r)
    ensures Done(t0, Turn(t, luck, r), luck, r)
    ensures Moves(t, luck, r) <==> Moves(t0, luck, r)
  {
    assert t0.rows[r].key in t0.RowKeys();
  }

  // Another row's turn leaves a row and its object as they are.
  lemma OthersSettled(t0: Store, t: Store, luck: Luck, q: nat, r: nat, done: bool)
    requires t0.OwnKeys() && luck.Suits(t0) && t.deks == t0.deks
    requires q in t.rows && q in t0.rows && r in t.rows && r in t0.rows && q != r && Untouched(t0, t, r)
    requires if done then Done(t0, t, luck, q) else Untouched(t0, t, q)
    ensures if done then Done(t0, Turn(t, luck, r), luck, q) else Untouched(t0, Turn(t, luck, r), q)
  {
    assert t0.rows[q].key != t0.rows[r].key && luck.newKeys[q] != luck.newKeys[r];
    assert t0.rows[q].key in t0.RowKeys() && t0.rows[r].key in t0.RowKeys();
    hide Movable, Moved;
  }

  // A run that has had every row's turn: each reads as before, those that
  // could move have, and their old objects are gone.
  ghost predicate Finished(t0: Store, t: Store, luck: Luck) {
    && t.deks == t0.deks && t.rows.Keys == t0.rows.Keys && luck.newKeys.Keys == t0.rows.Keys
    && forall r | r in t.rows ::
         && t.ReadRow(r) == t0.ReadRow(r)
         && t.rows[r] == (if Moves(t0, luck, r) then Row(luck.newKeys[r], true) else t0.rows[r])
         && (Moves(t0, luck, r) && r !in luck.deleteFails ==> t0.rows[r].key !in t.objects)
  }

  lemma AllDone(t0: Store, t: Store, luck: Luck)
    requires Progress(t0, t, luck, t0.rows.Keys)
    ensures Finished(t0, t, luck)
  {
    forall r | r in t.rows ensures t.ReadRow(r) == t0.ReadRow(r) {
      assert Done(t0, t, luck, r);
    }
  }

  // After a run every row has a bare UUID key and an encrypted object, but for
  // those it could not move: the object or the report's key was missing, or its
  // copy failed.
  lemma WhatIsLeft(t0: Store, t: Store, luck: Luck, r: nat)
    requires luck.Suits(t0) && Finished(t0, t, luck) && r in t0.rows
    ensures || (t.rows[r].key.Uuid? && t.rows[r].encrypted)
            || t0.rows[r].key !in t0.objects || (!t0.rows[r].encrypted && r !in t0.deks) || r in luck.copyFails
    ensures t0.rows[r].key.Uuid? && t0.rows[r].encrypted ==> t.rows[r] == t0.rows[r]
  {
  }

  function Among(order: seq<nat>): set<nat> { set r | r in order }

  ghost predicate Distinct(order: seq<nat>) { forall i, j | 0 <= i < j < |order| :: order[i] != order[j] }

  function MoversAmong(t: Store, luck: Luck, among: set<nat>): set<nat> { set r | r in among && Moves(t, luck, r) }

  lemma OneTurnMore(t: Store, luck: Luck, order: seq<nat>, i: nat)
    requires Distinct(order) && i < |order|
    ensures order[i] !in Among(order[..i]) && order[i] in Among(order)
    ensures Among(order[..i + 1]) == Among(order[..i]) + {order[i]}
    ensures |MoversAmong(t, luck, Among(order[..i + 1]))| ==
            |MoversAmong(t, luck, Among(order[..i]))| + if Moves(t, luck, order[i]) then 1 else 0
  {
    var r, before := order[i], Among(order[..i]);
    assert order[..i + 1] == order[..i] + [r];
    hide Moves;
    assert MoversAmong(t, luck, before + {r}) == MoversAmong(t, luck, before) + if Moves(t, luck, r) then {r} else {};
  }

  class Bucket {
    var rows: map<nat, Row>              // the attachment table
    var objects: map<Key, Blob>          // the bucket
    const deks: map<nat, nat>            // each row's report's data key

    constructor (t: Store)
      ensures Now() == t
    {
      rows, objects, deks := t.rows, t.objects, t.deks;
    }

    function Now(): Store
      reads this
    {
      Store(rows, objects, deks)
    }

    // One turn of its loop.
    method RekeyOne(r: nat, luck: Luck) returns (moved: bool)
      requires r in rows && r in luck.newKeys
      modifies this
      ensures Now() == Turn(old(Now()), luck, r)
      ensures moved <==> Moves(old(Now()), luck, r)
    {
      var row := rows[r];
      if !NeedsMove(row) {
        return false;
      }
      if r in luck.copyFails || row.key !in objects || (!row.encrypted && r !in deks) {
        return false;
      }
      var key := luck.newKeys[r];
      if row.encrypted {
        objects := objects[key := objects[row.key]];
      } else {
        objects := objects[key := Token(deks[r], objects[row.key])];
      }
      rows := rows[r := Row(key, true)];
      if r !in luck.deleteFails {
        objects := objects - {row.key};
      }
      moved := true;
    }

    // rekey_legacy_objects, over the rows in the order the SELECT gave them.
    method RekeyLegacyObjects(order: seq<nat>, luck: Luck) returns (moved: nat)
      requires Distinct(order) && Among(order) == rows.Keys
      requires Now().OwnKeys() && luck.Suits(Now())
      modifies this
      ensures Finished(old(Now()), Now(), luck)
      ensures moved == |MoversAmong(old(Now()), luck, old(rows).Keys)|
    {
      moved := 0;
      ghost var t0 := Now();
      for i := 0 to |order|
        invariant Progress(t0, Now(), luck, Among(order[..i]))
        invariant moved == |MoversAmong(t0, luck, Among(order[..i]))|
      {
        var r := order[i];
        OneTurnMore(t0, luck, order, i);
        TurnProgresses(t0, Now(), luck, Among(order[..i]), r);
        hide Done, Untouched, Moves, Turn, MoversAmong, Among, Distinct;
        var ok := RekeyOne(r, luck);
        if ok {
          moved := moved + 1;
        }
      }
      assert order[..|order|] == order;
      AllDone(t0, Now(), luck);
    }
  }

  // ── Overlapping runs ──────────────────────────────────────────────

  // A run works from the rows it read at its start, whatever happens to them
  // since. It stops by taking no further step.
  datatype Phase =
    | Idle
    | Holding(r: nat, key: Key, sealed: Blob)   // read and sealed, not stored
    | Written(r: nat, key: Key)                 // the new object stored
    | Repointed(r: nat, former: Key)              // the row committed

  datatype Job = Job(seen: map<nat, Row>, phase: Phase)

  datatype State = State(
    rows: map<nat, Row>,
    objects: map<Key, Blob>,
    used: set<Key>,                             // every key there has been
    jobs: map<nat, Job>)

  datatype Step =
    | Start(p: nat)
    | Copy(p: nat, r: nat, key: Key)
    | Fetch(p: nat, r: nat, key: Key)
    | Put(p: nat)
    | Fail(p: nat)                              // of a store, done or not
    | Repoint(p: nat)
    | Delete(p: nat)
    | DeleteFails(p: nat)

  predicate Enabled(deks: map<nat, nat>, s: State, a: Step) {
    match a
    case Start(p) => p !in s.jobs
    case Copy(p, r, key) =>
      && p in s.jobs && s.jobs[p].phase.Idle? && Movable(s.jobs[p].seen, s.objects, deks, r)
      && s.jobs[p].seen[r].encrypted && key.Uuid? && key !in s.used
    case Fetch(p, r, key) =>
      && p in s.jobs && s.jobs[p].phase.Idle? && Movable(s.jobs[p].seen, s.objects, deks, r)
      && !s.jobs[p].seen[r].encrypted && key.Uuid? && key !in s.used
    case Put(p) => p in s.jobs && s.jobs[p].phase.Holding?
    case Fail(p) => p in s.jobs && (s.jobs[p].phase.Holding? || s.jobs[p].phase.Written?)
    case Repoint(p) =>
      p in s.jobs && s.jobs[p].phase.Written? && s.jobs[p].phase.r in s.rows && s.jobs[p].phase.r in s.jobs[p].seen
    case Delete(p) => p in s.jobs && s.jobs[p].phase.Repointed?
    case DeleteFails(p) => p in s.jobs && s.jobs[p].phase.Repointed?
  }

  function To(s: State, p: nat, phase: Phase): State
    requires p in s.jobs
  {
    s.(jobs := s.jobs[p := s.jobs[p].(phase := phase)])
  }

  function Apply(deks: map<nat, nat>, s: State, a: Step): State
    requires Enabled(deks, s, a)
  {
    match a
    case Start(p) => s.(jobs := s.jobs[p := Job(s.rows, Idle)])
    case Copy(p, r, key) =>
      To(s.(objects := s.objects[key := s.objects[s.jobs[p].seen[r].key]], used := s.used + {key}), p, Written(r, key))
    case Fetch(p, r, key) =>
      To(s.(used := s.used + {key}), p, Holding(r, key, Token(deks[r], s.objects[s.jobs[p].seen[r].key])))
    case Put(p) =>
      var h := s.jobs[p].phase;
      To(s.(objects := s.objects[h.key := h.sealed]), p, Written(h.r, h.key))
    case Fail(p) => To(s, p, Idle)
    case Repoint(p) =>
      // The UPDATE names the columns that differ from what the run read.
      var w, seen := s.jobs[p].phase, s.jobs[p].seen;
      var row := Row(w.key, seen[w.r].encrypted ==> s.rows[w.r].encrypted);
      s.(rows := s.rows[w.r := row],
         jobs := s.jobs[p := Job(seen[w.r := Row(w.key, true)], Repointed(w.r, seen[w.r].key))])
    case Delete(p) => To(s.(objects := s.objects - {s.jobs[p].phase.former}), p, Idle)
    case DeleteFails(p) => To(s, p, Idle)
  }

  predicate Run(deks: map<nat, nat>, s: State, steps: seq<Step>)
    decreases |steps|
  {
    steps == [] || (Enabled(deks, s, steps[0]) && Run(deks, Apply(deks, s, steps[0]), steps[1..]))
  }

  function End(deks: map<nat, nat>, s: State, steps: seq<Step>): State
    requires Run(deks, s, steps)
    decreases |steps|
  {
    if steps == [] then s else End(deks, Apply(deks, s, steps[0]), steps[1..])
  }

  // The state after a row's turn is the loop's.
  ghost predicate IsTurned(t: Store, s: State, u: State, p: nat, r: nat, key: Key, luck: Luck)
    requires r in t.rows && r in luck.newKeys
  {
    && u.rows == Turn(t, luck, r).rows && u.objects == Turn(t, luck, r).objects
    && u.jobs == s.jobs[p := Job(t.rows[r := Row(key, true)], Idle)] && u.used == s.used + {key}
  }

  function LastStep(p: nat, r: nat, luck: Luck): Step { if r in luck.deleteFails then DeleteFails(p) else Delete(p) }

  // A run that nobody disturbs takes a row through the loop's turn: an encrypted
  // object is copied, the row committed, the old object deleted;
  lemma ACopyAlone(t: Store, s: State, p: nat, r: nat, key: Key, luck: Luck)
    requires s.rows == t.rows && s.objects == t.objects && p !in s.jobs && key.Uuid? && key !in s.used
    requires Moves(t, luck, r) && r in luck.newKeys && luck.newKeys[r] == key && key !in t.objects && t.rows[r].key != key
    requires t.rows[r].encrypted
    ensures var steps := [Start(p), Copy(p, r, key), Repoint(p), LastStep(p, r, luck)];
            Run(t.deks, s, steps) && IsTurned(t, s, End(t.deks, s, steps), p, r, key, luck)
  {
    var s1, last := Apply(t.deks, s, Start(p)), LastStep(p, r, luck);
    var s2 := Apply(t.deks, s1, Copy(p, r, key));
    RepointAndDelete(t, s2, p, r, key, luck);
    hide Turn, Run, End;
    Unfolds(t.deks, s1, Copy(p, r, key), [Repoint(p), last]);
    Unfolds(t.deks, s, Start(p), [Copy(p, r, key)] + [Repoint(p), last]);
    assert [Start(p)] + ([Copy(p, r, key)] + [Repoint(p), last]) == [Start(p), Copy(p, r, key), Repoint(p), last];
  }

  // one in the clear is fetched, sealed and put.
  lemma AFetchAlone(t: Store, s: State, p: nat, r: nat, key: Key, luck: Luck)
    requires s.rows == t.rows && s.objects == t.objects && p !in s.jobs && key.Uuid? && key !in s.used
    requires Moves(t, luck, r) && r in luck.newKeys && luck.newKeys[r] == key && key !in t.objects && t.rows[r].key != key
    requires !t.rows[r].encrypted
    ensures var steps := [Start(p), Fetch(p, r, key), Put(p), Repoint(p), LastStep(p, r, luck)];
            Run(t.deks, s, steps) && IsTurned(t, s, End(t.deks, s, steps), p, r, key, luck)
  {
    var s1, last := Apply(t.deks, s, Start(p)), LastStep(p, r, luck);
    var s2 := Apply(t.deks, s1, Fetch(p, r, key));
    var s3 := Apply(t.deks, s2, Put(p));
    RepointAndDelete(t, s3, p, r, key, luck);
    hide Turn, Run, End;
    Unfolds(t.deks, s2, Put(p), [Repoint(p), last]);
    Unfolds(t.deks, s1, Fetch(p, r, key), [Put(p)] + [Repoint(p), last]);
    Unfolds(t.deks, s, Start(p), [Fetch(p, r, key)] + ([Put(p)] + [Repoint(p), last]));
    assert [Start(p)] + ([Fetch(p, r, key)] + ([Put(p)] + [Repoint(p), last])) ==
           [Start(p), Fetch(p, r, key), Put(p), Repoint(p), last];
  }

  // A store or a deletion that fails leaves the rows and what is stored; the run
  // goes on with its next row.
  lemma AFailureAlone(deks: map<nat, nat>, s: State, p: nat)
    requires p in s.jobs
    ensures s.jobs[p].phase.Holding? || s.jobs[p].phase.Written? ==>
              Enabled(deks, s, Fail(p)) && Apply(deks, s, Fail(p)) == s.(jobs := s.jobs[p := s.jobs[p].(phase := Idle)])
    ensures s.jobs[p].phase.Repointed? ==>
              Enabled(deks, s, DeleteFails(p))
              && Apply(deks, s, DeleteFails(p)) == s.(jobs := s.jobs[p := s.jobs[p].(phase := Idle)])
  {
  }

  lemma RepointAndDelete(t: Store, s: State, p: nat, r: nat, key: Key, luck: Luck)
    requires Moves(t, luck, r) && r in luck.newKeys && luck.newKeys[r] == key && key !in t.objects && t.rows[r].key != key
    requires p in s.jobs && s.jobs[p] == Job(t.rows, Written(r, key)) && s.rows == t.rows
    requires s.objects == t.objects[key := Moved(t.rows[r], if r in t.deks then t.deks[r] else 0, t.objects[t.rows[r].key])]
    ensures var steps := [Repoint(p), LastStep(p, r, luck)];
            && Run(t.deks, s, steps)
            && var u := End(t.deks, s, steps);
               && u.rows == Turn(t, luck, r).rows && u.objects == Turn(t, luck, r).objects
               && u.jobs == s.jobs[p := Job(t.rows[r := Row(key, true)], Idle)] && u.used == s.used
  {
    var last := LastStep(p, r, luck);
    var s1 := Apply(t.deks, s, Repoint(p));
    Unfolds(t.deks, s1, last, []);
    Unfolds(t.deks, s, Repoint(p), [last] + []);
    assert [last] + [] == [last] && [Repoint(p)] + [last] == [Repoint(p), last];
  }

  lemma Unfolds(deks: map<nat, nat>, s: State, a: Step, rest: seq<Step>)
    requires Enabled(deks, s, a) && Run(deks, Apply(deks, s, a), rest)
    ensures Run(deks, s, [a] + rest) && End(deks, s, [a] + rest) == End(deks, Apply(deks, s, a), rest)
  {
    hide Enabled, Apply;
    assert ([a] + rest)[1..] == rest;
  }

  function InitialKeys(o: Store): set<Key> { o.objects.Keys + o.RowKeys() }

  function Initial(o: Store): State { State(o.rows, o.objects, InitialKeys(o), map[]) }

  // A new object that holds what row r's old one did, under a key no other row
  // or run has.
  ghost predicate Own(o: Store, s: State, r: nat, key: Key) {
    && Movable(o.rows, o.objects, o.deks, r)
    && key.Uuid? && key in s.used && key !in InitialKeys(o) && key in s.objects
    && s.objects[key] == Moved(o.rows[r], if r in o.deks then o.deks[r] else 0, o.objects[o.rows[r].key])
  }

  // Row r as it was at first, or moved.
  ghost predicate Sound(o: Store, s: State, r: nat, row: Row) {
    r in o.rows && (row == o.rows[r] || (row.encrypted && Own(o, s, r, row.key)))
  }

  ghost predicate SoundPhase(o: Store, s: State, job: Job) {
    match job.phase
    case Idle => true
    case Holding(r, key, sealed) =>
      && Movable(o.rows, o.objects, o.deks, r) && !o.rows[r].encrypted && r in job.seen && job.seen[r] == o.rows[r]
      && key.Uuid? && key in s.used && key !in InitialKeys(o) && key !in s.objects
      && sealed == Moved(o.rows[r], o.deks[r], o.objects[o.rows[r].key])
    case Written(r, key) => r in job.seen && r in o.rows && job.seen[r] == o.rows[r] && Own(o, s, r, key)
    case Repointed(r, former) => r in o.rows && r in s.rows && o.rows[r].key == former && s.rows[r] != o.rows[r]
  }

  // A row that no run has moved still has its old object.
  ghost predicate NotLost(o: Store, s: State, r: nat)
    requires r in o.rows && r in s.rows
  {
    s.rows[r] == o.rows[r] && o.rows[r].key in o.objects ==> o.rows[r].key in s.objects
  }

  ghost predicate OldAsItWas(o: Store, s: State, key: Key) {
    key in s.objects && key in InitialKeys(o) ==> key in o.objects && s.objects[key] == o.objects[key]
  }

  // No two runs are about to store under the same key.
  ghost predicate Apart(s: State) {
    forall p, q | p in s.jobs && q in s.jobs && s.jobs[p].phase.Holding? && s.jobs[q].phase.Holding?
                  && s.jobs[p].phase.key == s.jobs[q].phase.key :: p == q
  }

  ghost predicate Kept(o: Store, s: State) {
    && s.rows.Keys == o.rows.Keys && InitialKeys(o) <= s.used && s.objects.Keys <= s.used
    && (forall key :: OldAsItWas(o, s, key))
    && (forall r | r in s.rows :: NotLost(o, s, r) && Sound(o, s, r, s.rows[r]))
    && (forall p | p in s.jobs :: SoundPhase(o, s, s.jobs[p]))
    && (forall p, r | p in s.jobs && r in s.jobs[p].seen :: Sound(o, s, r, s.jobs[p].seen[r]))
    && Apart(s)
  }

  // Objects are written once, and only old ones are deleted.
  lemma ObjectsStay(o: Store, s: State, a: Step, key: Key)
    requires Kept(o, s) && Enabled(o.deks, s, a) && key !in InitialKeys(o) && key in s.objects
    ensures key in Apply(o.deks, s, a).objects && Apply(o.deks, s, a).objects[key] == s.objects[key]
  {
    if a.Put? || a.Delete? {
      assert SoundPhase(o, s, s.jobs[a.p]);
    }
    if a.Delete? {
      assert s.jobs[a.p].phase.former in o.RowKeys();
    }
  }

  lemma StaysOwn(o: Store, s: State, a: Step, r: nat, key: Key)
    requires Kept(o, s) && Enabled(o.deks, s, a) && Own(o, s, r, key)
    ensures Own(o, Apply(o.deks, s, a), r, key)
  {
    ObjectsStay(o, s, a, key);
  }

  // What a copy or a fetch reads is the old object, as it was at first.
  lemma ReadsTheOld(o: Store, s: State, p: nat, r: nat)
    requires Kept(o, s) && p in s.jobs && Movable(s.jobs[p].seen, s.objects, o.deks, r)
    ensures Movable(o.rows, o.objects, o.deks, r) && s.jobs[p].seen[r] == o.rows[r]
    ensures s.objects[o.rows[r].key] == o.objects[o.rows[r].key]
  {
    assert Sound(o, s, r, s.jobs[p].seen[r]);
    assert o.rows[r].key in o.RowKeys();
    assert OldAsItWas(o, s, o.rows[r].key);
  }

  lemma PhaseStaysSound(o: Store, s: State, a: Step, p: nat)
    requires Kept(o, s) && Enabled(o.deks, s, a) && p in s.jobs && p != a.p
    ensures SoundPhase(o, Apply(o.deks, s, a), s.jobs[p])
  {
    var t, job := Apply(o.deks, s, a), s.jobs[p];
    assert SoundPhase(o, s, job);
    if job.phase.Written? {
      StaysOwn(o, s, a, job.phase.r, job.phase.key);
    }
    if a.Repoint? {
      assert SoundPhase(o, s, s.jobs[a.p]);
      assert o.rows[s.jobs[a.p].phase.r].key in o.RowKeys();
    }
  }

  lemma MoverStaysSound(o: Store, s: State, a: Step)
    requires Kept(o, s) && Enabled(o.deks, s, a)
    ensures SoundPhase(o, Apply(o.deks, s, a), Apply(o.deks, s, a).jobs[a.p])
  {
    match a {
      case Copy(p, r, key) => ReadsTheOld(o, s, p, r);
      case Fetch(p, r, key) => ReadsTheOld(o, s, p, r);
      case Start(p) =>
      case Repoint(p) =>
        assert SoundPhase(o, s, s.jobs[p]);
        assert o.rows[s.jobs[p].phase.r].key in o.RowKeys();
      case _ => assert SoundPhase(o, s, s.jobs[a.p]);
    }
  }

  lemma StaysNotLost(o: Store, s: State, a: Step, r: nat)
    requires o.OwnKeys() && Kept(o, s) && Enabled(o.deks, s, a) && r in s.rows
    ensures var t := Apply(o.deks, s, a); r in t.rows && NotLost(o, t, r)
  {
    assert NotLost(o, s, r);
    if a.Repoint? || a.Delete? {
      assert SoundPhase(o, s, s.jobs[a.p]);
      assert o.rows[s.jobs[a.p].phase.r].key in o.RowKeys();
    }
    hide Movable, OldAsItWas, Sound, Moved;
  }

  lemma RowStaysSound(o: Store, s: State, a: Step, r: nat)
    requires Kept(o, s) && Enabled(o.deks, s, a) && r in s.rows
    ensures var t := Apply(o.deks, s, a); r in t.rows && Sound(o, t, r, t.rows[r])
  {
    assert Sound(o, s, r, s.rows[r]);
    if s.rows[r] != o.rows[r] {
      StaysOwn(o, s, a, r, s.rows[r].key);
    }
    if a.Repoint? {
      assert SoundPhase(o, s, s.jobs[a.p]);
      assert o.rows[s.jobs[a.p].phase.r].key in o.RowKeys();
    }
    hide Movable, OldAsItWas, NotLost, Moved, InitialKeys;
  }

  lemma SeenStaysSound(o: Store, s: State, a: Step, p: nat, r: nat)
    requires Kept(o, s) && Enabled(o.deks, s, a)
    requires p in Apply(o.deks, s, a).jobs && r in Apply(o.deks, s, a).jobs[p].seen
    ensures var t := Apply(o.deks, s, a); Sound(o, t, r, t.jobs[p].seen[r])
  {
    if a.p == p {
      if a.Start? {
        assert Sound(o, s, r, s.rows[r]);
      } else {
        assert SoundPhase(o, s, s.jobs[p]);
      }
    }
    if p in s.jobs && r in s.jobs[p].seen && s.jobs[p].seen[r] != o.rows[r] {
      StaysOwn(o, s, a, r, s.jobs[p].seen[r].key);
    }
  }

  lemma OldStaysAsItWas(o: Store, s: State, a: Step, key: Key)
    requires Kept(o, s) && Enabled(o.deks, s, a)
    ensures OldAsItWas(o, Apply(o.deks, s, a), key)
  {
    assert OldAsItWas(o, s, key);
    if a.p in s.jobs {
      assert SoundPhase(o, s, s.jobs[a.p]);
    }
  }

  lemma KeysStayUsed(o: Store, s: State, a: Step)
    requires Kept(o, s) && Enabled(o.deks, s, a)
    ensures var t := Apply(o.deks, s, a);
            t.rows.Keys == o.rows.Keys && s.used <= t.used && t.objects.Keys <= t.used
  {
    if a.p in s.jobs {
      assert SoundPhase(o, s, s.jobs[a.p]);
    }
    hide SoundPhase, Sound, NotLost, OldAsItWas, InitialKeys, Movable;
  }

  // A job holds a sealed object after a step only if it did before, or if it
  // has just fetched it under a key nobody had used.
  lemma HoldsNewly(o: Store, s: State, a: Step, p: nat)
    requires Enabled(o.deks, s, a)
    requires p in Apply(o.deks, s, a).jobs && Apply(o.deks, s, a).jobs[p].phase.Holding?
    ensures var now := Apply(o.deks, s, a).jobs[p].phase;
            || (p in s.jobs && s.jobs[p].phase == now && (a.Fetch? ==> a.p != p))
            || (a.Fetch? && a.p == p && now.key == a.key && a.key !in s.used)
  {
    hide Movable, Moved;
  }

  lemma HoldersStayApart(o: Store, s: State, a: Step)
    requires Kept(o, s) && Enabled(o.deks, s, a)
    ensures Apart(Apply(o.deks, s, a))
  {
    var t := Apply(o.deks, s, a);
    forall p, q | p in t.jobs && q in t.jobs && t.jobs[p].phase.Holding? && t.jobs[q].phase.Holding?
                  && t.jobs[p].phase.key == t.jobs[q].phase.key
      ensures p == q
    {
      HoldsNewly(o, s, a, p);
      HoldsNewly(o, s, a, q);
      assert p in s.jobs ==> SoundPhase(o, s, s.jobs[p]);
      assert q in s.jobs ==> SoundPhase(o, s, s.jobs[q]);
      hide Apply, Enabled, Movable, Moved, InitialKeys;
    }
  }

  lemma StaysKept(o: Store, s: State, a: Step)
    requires o.OwnKeys() && Kept(o, s) && Enabled(o.deks, s, a)
    ensures Kept(o, Apply(o.deks, s, a))
  {
    var t := Apply(o.deks, s, a);
    KeysStayUsed(o, s, a);
    HoldersStayApart(o, s, a);
    hide SoundPhase, Sound, NotLost, OldAsItWas, InitialKeys, Movable, Apart;
    forall key ensures OldAsItWas(o, t, key) {
      OldStaysAsItWas(o, s, a, key);
    }
    forall r | r in t.rows ensures NotLost(o, t, r) && Sound(o, t, r, t.rows[r]) {
      assert r in s.rows.Keys;
      StaysNotLost(o, s, a, r);
      RowStaysSound(o, s, a, r);
    }
    forall p, r | p in t.jobs && r in t.jobs[p].seen ensures Sound(o, t, r, t.jobs[p].seen[r]) {
      SeenStaysSound(o, s, a, p, r);
    }
    forall p | p in t.jobs ensures SoundPhase(o, t, t.jobs[p]) {
      if p == a.p {
        MoverStaysSound(o, s, a);
      } else {
        PhaseStaysSound(o, s, a, p);
      }
    }
  }

  lemma {:induction false} RunStaysKept(o: Store, s: State, steps: seq<Step>)
    requires o.OwnKeys() && Kept(o, s) && Run(o.deks, s, steps)
    ensures Kept(o, End(o.deks, s, steps))
    decreases |steps|
  {
    if steps != [] {
      StaysKept(o, s, steps[0]);
      RunStaysKept(o, Apply(o.deks, s, steps[0]), steps[1..]);
    }
  }

  function ReadNow(o: Store, s: State, r: nat, row: Row): Result<Blob, ReadError> { Read(s.objects, row, o.Dek(r)) }

  // In every state that any number of overlapping runs reaches, each of them
  // stopped wherever it may be, every row reads as it did before the first.
  lemma EveryRowStillReads(o: Store, steps: seq<Step>, r: nat)
    requires o.OwnKeys() && Run(o.deks, Initial(o), steps) && r in o.rows
    ensures var s := End(o.deks, Initial(o), steps);
            r in s.rows && ReadNow(o, s, r, s.rows[r]) == o.ReadRow(r)
  {
    RunStaysKept(o, Initial(o), steps);
    var s := End(o.deks, Initial(o), steps);
    assert r in s.rows.Keys;
    assert NotLost(o, s, r) && Sound(o, s, r, s.rows[r]);
    assert o.rows[r].key in o.RowKeys();
    assert OldAsItWas(o, s, o.rows[r].key);
  }

  // A download that read its row earlier finds the same bytes, or nothing.
  lemma AStaleRowReadsTheSameOrNothing(o: Store, before: seq<Step>, after: seq<Step>, r: nat)
    requires o.OwnKeys() && Run(o.deks, Initial(o), before) && Run(o.deks, End(o.deks, Initial(o), before), after)
    requires r in o.rows && r in End(o.deks, Initial(o), before).rows
    ensures var s := End(o.deks, Initial(o), before);
            var t := End(o.deks, s, after);
            var read := ReadNow(o, t, r, s.rows[r]);
            read == o.ReadRow(r) || read == Err(NotFound)
  {
    var s := End(o.deks, Initial(o), before);
    RunStaysKept(o, Initial(o), before);
    assert Sound(o, s, r, s.rows[r]);
    RunStaysKept(o, s, after);
    var t := End(o.deks, s, after);
    hide Run, End;
    if s.rows[r] != o.rows[r] {
      OwnForGood(o, s, after, r, s.rows[r].key);
    } else {
      assert o.rows[r].key in o.RowKeys();
      assert OldAsItWas(o, t, o.rows[r].key);
    }
  }

  lemma {:induction false} OwnForGood(o: Store, s: State, steps: seq<Step>, r: nat, key: Key)
    requires o.OwnKeys() && Kept(o, s) && Run(o.deks, s, steps) && Own(o, s, r, key)
    ensures Own(o, End(o.deks, s, steps), r, key)
    decreases |steps|
  {
    if steps != [] {
      StaysOwn(o, s, steps[0], r, key);
      StaysKept(o, s, steps[0]);
      OwnForGood(o, Apply(o.deks, s, steps[0]), steps[1..], r, key);
    }
  }

  // A row once moved is left alone by every run that starts later.
  lemma MovedIsLeftAlone(o: Store, s: State, r: nat)
    requires Kept(o, s) && r in s.rows && s.rows[r] != o.rows[r]
    ensures !Movable(s.rows, s.objects, o.deks, r)
  {
    assert Sound(o, s, r, s.rows[r]);
  }
}
