/**
 * Key rotation (scripts/rotate_encryption_key.py, app/services/encryption.py,
 * app/services/crypto.py): every value sealed under some configured key is
 * sealed again under the current one, all or none, while the application
 * writes beside it.
 */
module Rotation {
  import opened Options
  import Facts

  // Two keys are derived from a configured one; a report has its own.
  datatype Use = Wrapping | Fields
  datatype FernetKey = Derived(use: Use, root: string) | ReportKey(dek: string)

  // A stored text: a Fernet token, or anything else.
  datatype Text = Sealed(key: FernetKey, nonce: nat, plain: string) | Other(text: string)

  datatype Failure = InvalidToken | Crash

  // MultiFernet: sealed with the first key, opened with any.
  function Seal(keys: seq<string>, use: Use, nonce: nat, plain: string): Text
    requires keys != []
  {
    Sealed(Derived(use, keys[0]), nonce, plain)
  }

  function Open(keys: seq<string>, use: Use, t: Text): Result<string, Failure> {
    if t.Sealed? && t.key.Derived? && t.key.use == use && t.key.root in keys then Ok(t.plain) else Err(InvalidToken)
  }

  // rotate and rotate_dek.
  function Rotated(keys: seq<string>, use: Use, nonce: nat, t: Text): Result<Text, Failure>
    requires keys != []
  {
    match Open(keys, use, t)
    case Ok(plain) => Ok(Seal(keys, use, nonce, plain))
    case Err(e) => Err(e)
  }

  // decrypt_field with make_report_fernet: a report's text under its own key.
  function OpenField(keys: seq<string>, wrapped: Text, field: Text): Result<string, Failure> {
    match Open(keys, Wrapping, wrapped)
    case Err(e) => Err(e)
    case Ok(dek) => if field.Sealed? && field.key == ReportKey(dek) then Ok(field.plain) else Err(InvalidToken)
  }

  // A text opens exactly if it was sealed for that use under one of the keys,
  // and then gives what was sealed.
  lemma OpensIff(keys: seq<string>, use: Use, t: Text, plain: string)
    ensures Open(keys, use, t) == Ok(plain) <==>
            exists root, nonce :: root in keys && t == Sealed(Derived(use, root), nonce, plain)
  {
  }

  // A report's own text opens exactly if its wrapped key does, and it was
  // sealed under that one.
  lemma FieldOpensIff(keys: seq<string>, wrapped: Text, field: Text, plain: string)
    ensures OpenField(keys, wrapped, field) == Ok(plain) <==>
            exists root, nonce, dek, n ::
              root in keys && wrapped == Sealed(Derived(Wrapping, root), nonce, dek) && field == Sealed(ReportKey(dek), n, plain)
  {
    if OpenField(keys, wrapped, field) == Ok(plain) {
      assert wrapped == Sealed(Derived(Wrapping, wrapped.key.root), wrapped.nonce, wrapped.plain);
      assert field == Sealed(ReportKey(wrapped.plain), field.nonce, plain);
    }
  }

  // ── The database ──────────────────────────────────────────────────

  datatype Column = ConfidentialName | ConfidentialContact | SecureEmail
  datatype Action = IdentityRevealed | ContentSearched | OtherAction(name: string)
  datatype JsonKey = Reason | Term | OtherKey(name: string)

  // A column of one row. Null columns are not in the database.
  datatype Cell =
    | Dek(report: nat)
    | Field(column: Column, report: nat)
    | Totp(user: nat)
    | Detail(action: Action, id: nat)
    | Elsewhere(name: string)

  // An audit detail is a JSON object, or some other text; either may mention
  // a quoted key, which is what the LIKE looks for.
  datatype Value =
    | Plain(text: Text)
    | Json(fields: map<JsonKey, Text>, mentioned: set<JsonKey>)
    | NotAnObject(mentioned: set<JsonKey>)

  type Cells = map<Cell, Value>

  datatype Source = Deks | FieldsOf(column: Column) | Totps | Details(action: Action, key: JsonKey)

  const SOURCES: seq<Source> := [
    Deks, FieldsOf(ConfidentialName), FieldsOf(ConfidentialContact), FieldsOf(SecureEmail), Totps,
    Details(IdentityRevealed, Reason), Details(ContentSearched, Term)]

  predicate Mentions(v: Value, key: JsonKey) {
    (v.Json? && (key in v.mentioned || key in v.fields)) || (v.NotAnObject? && key in v.mentioned)
  }

  // A detail with the key has it quoted in its text; so may any other detail.
  lemma MentionsIff(v: Value, key: JsonKey)
    ensures v.Plain? ==> !Mentions(v, key)
    ensures v.NotAnObject? ==> (Mentions(v, key) <==> key in v.mentioned)
    ensures v.Json? ==> (Mentions(v, key) <==> key in v.fields.Keys + v.mentioned)
  {
  }

  // The WHERE clauses.
  predicate Selects(src: Source, c: Cell, v: Value) {
    match src
    case Deks => c.Dek?
    case FieldsOf(column) => c.Field? && c.column == column
    case Totps => c.Totp?
    case Details(action, key) => c.Detail? && c.action == action && Mentions(v, key)
  }

  // rotate, rotate_dek and _detail_rotator.
  function Transform(keys: seq<string>, src: Source, nonce: nat, v: Value): Result<Value, Failure>
    requires keys != []
  {
    match src
    case Details(_, key) =>
      if !v.Json? || key !in v.fields then Err(Crash)
      else (match Rotated(keys, Fields, nonce, v.fields[key])
            case Ok(t) => Ok(Json(v.fields[key := t], v.mentioned))
            case Err(e) => Err(e))
    case _ =>
      if !v.Plain? then Err(Crash)
      else (match Rotated(keys, if src.Deks? then Wrapping else Fields, nonce, v.text)
            case Ok(t) => Ok(Plain(t))
            case Err(e) => Err(e))
  }

  // What a reader gets: a text, or a detail's secret beside its other fields.
  datatype Reading = Clear(plain: string) | Secret(plain: string, rest: map<JsonKey, Text>)

  function Read(keys: seq<string>, src: Source, v: Value): Result<Reading, Failure> {
    match src
    case Details(_, key) =>
      if !v.Json? || key !in v.fields then Err(Crash)
      else (match Open(keys, Fields, v.fields[key])
            case Ok(plain) => Ok(Secret(plain, v.fields - {key}))
            case Err(e) => Err(e))
    case _ =>
      if !v.Plain? then Err(Crash)
      else (match Open(keys, if src.Deks? then Wrapping else Fields, v.text)
            case Ok(plain) => Ok(Clear(plain))
            case Err(e) => Err(e))
  }

  // Rotation keeps what a value says and needs the current key only; it fails
  // exactly where reading does, and can be repeated.
  lemma RotationKeepsTheReading(keys: seq<string>, src: Source, nonce: nat, v: Value)
    requires keys != []
    ensures Transform(keys, src, nonce, v).Ok? <==> Read(keys, src, v).Ok?
    ensures Transform(keys, src, nonce, v).Err? ==> Transform(keys, src, nonce, v).error == Read(keys, src, v).error
    ensures Transform(keys, src, nonce, v).Ok? ==>
              var w := Transform(keys, src, nonce, v).value;
              && Read([keys[0]], src, w) == Read(keys, src, v)
              && Read(keys, src, w) == Read(keys, src, v)
              && forall c, s | s in SOURCES :: Selects(s, c, w) == Selects(s, c, v)
  {
    var done := Transform(keys, src, nonce, v);
    if done.Ok? && src.Details? {
      assert done.value.fields - {src.key} == v.fields - {src.key};
      assert done.value.fields.Keys == v.fields.Keys;
    }
  }

  // Under the current key: readable with it alone, for whichever source has it.
  ghost predicate Current(keys: seq<string>, c: Cell, v: Value)
    requires keys != []
  {
    forall src | src in SOURCES && Selects(src, c, v) :: Read([keys[0]], src, v).Ok?
  }

  // No cell is selected twice, whatever it comes to hold.
  lemma OneSource(s: Source, t: Source, c: Cell, v: Value, w: Value)
    requires s in SOURCES && t in SOURCES && Selects(s, c, v) && Selects(t, c, w)
    ensures s == t
  {
  }

  // ── The writers beside it ─────────────────────────────────────────

  // What others have written before each of the script's statements: a new
  // value, or none.
  type Writes = map<Cell, Option<Value>>

  function Written(cells: Cells, w: Writes): Cells {
    map c | c in cells.Keys + w.Keys && (c in w ==> w[c].Some?) :: if c in w then w[c].value else cells[c]
  }

  function Before(others: seq<Writes>, n: nat): Writes { if n < |others| then others[n] else map[] }

  // The cells as the others alone leave them, before statement n.
  function Beside(cells: Cells, others: seq<Writes>, n: nat): Cells {
    if n == 0 then cells else Written(Beside(cells, others, n - 1), Before(others, n - 1))
  }

  function Touched(others: seq<Writes>, n: nat): set<Cell> {
    if n == 0 then {} else Touched(others, n - 1) + Before(others, n - 1).Keys
  }

  // The application seals under the current key.
  ghost predicate SealsCurrent(keys: seq<string>, others: seq<Writes>)
    requires keys != []
  {
    forall n, c | 0 <= n < |others| && c in others[n] && others[n][c].Some? :: Current(keys, c, others[n][c].value)
  }

  lemma {:induction false} UntouchedBeside(cells: Cells, others: seq<Writes>, n: nat, c: Cell)
    requires c !in Touched(others, n)
    ensures c in Beside(cells, others, n) <==> c in cells
    ensures c in cells ==> Beside(cells, others, n)[c] == cells[c]
  {
    if n > 0 {
      UntouchedBeside(cells, others, n - 1, c);
    }
  }

  lemma {:induction false} TouchedGrows(others: seq<Writes>, m: nat, n: nat)
    requires m <= n
    ensures Touched(others, m) <= Touched(others, n)
  {
    if m < n {
      TouchedGrows(others, m, n - 1);
    }
  }

  lemma {:induction false} TouchedIsCurrent(keys: seq<string>, cells: Cells, others: seq<Writes>, n: nat, c: Cell)
    requires keys != [] && SealsCurrent(keys, others)
    requires c in Touched(others, n) && c in Beside(cells, others, n)
    ensures Current(keys, c, Beside(cells, others, n)[c])
  {
    if c !in Before(others, n - 1) {
      TouchedIsCurrent(keys, cells, others, n - 1, c);
    }
  }

  // ── The script ────────────────────────────────────────────────────

  datatype Write = Write(cell: Cell, was: Value, now: Value)

  datatype Outcome = NothingToRotate | Crashed | Refused(failed: set<Cell>) | Completed(rotated: nat, skipped: nat)

  ghost predicate Fails(keys: seq<string>, cells: Cells, src: Source, c: Cell) {
    c in cells && Selects(src, c, cells[c]) && Read(keys, src, cells[c]) == Err(InvalidToken)
  }

  ghost predicate Reads(keys: seq<string>, cells: Cells, src: Source, c: Cell) {
    c in cells && Selects(src, c, cells[c]) && Read(keys, src, cells[c]).Ok?
  }

  // The new value says what the old one did, and needs the current key only.
  ghost predicate Renewed(keys: seq<string>, c: Cell, was: Value, now: Value)
    requires keys != []
  {
    forall src | src in SOURCES ::
      && Selects(src, c, now) == Selects(src, c, was)
      && (Selects(src, c, was) ==> Read([keys[0]], src, now).Ok? && Read([keys[0]], src, now) == Read(keys, src, was))
  }

  lemma TransformRenews(keys: seq<string>, src: Source, nonce: nat, c: Cell, v: Value)
    requires keys != [] && src in SOURCES && Selects(src, c, v) && Transform(keys, src, nonce, v).Ok?
    ensures Renewed(keys, c, v, Transform(keys, src, nonce, v).value)
  {
    RotationKeepsTheReading(keys, src, nonce, v);
    hide Transform, Read;
    forall s | s in SOURCES && Selects(s, c, v) ensures s == src {
      OneSource(s, src, c, v, v);
    }
    hide Selects;
  }

  function CellsOf(writes: seq<Write>): set<Cell> { set w | w in writes :: w.cell }

  ghost predicate OneEach(writes: seq<Write>) {
    forall i, j | 0 <= i < j < |writes| :: writes[i].cell != writes[j].cell
  }

  ghost predicate Planned(keys: seq<string>, cells: Cells, w: Write)
    requires keys != []
  {
    w.cell in cells && w.was == cells[w.cell] && Renewed(keys, w.cell, w.was, w.now)
  }

  // One SELECT's rows: each readable one has its write, and the rest have failed.
  ghost predicate SourceRead(keys: seq<string>, cells: Cells, src: Source, writes: seq<Write>, failed: set<Cell>)
    requires keys != []
  {
    && OneEach(writes)
    && (forall w | w in writes :: Planned(keys, cells, w))
    && (forall c :: c in failed <==> Fails(keys, cells, src, c))
    && (forall c :: c in CellsOf(writes) <==> Reads(keys, cells, src, c))
    && (forall c | c in cells && Selects(src, c, cells[c]) :: c in failed || c in CellsOf(writes))
  }

  // A detail that is not an object, or lacks the key: no InvalidToken, so
  // nothing catches it.
  ghost predicate CrashesOn(keys: seq<string>, cells: Cells, src: Source) {
    exists c :: c in cells && Selects(src, c, cells[c]) && Read(keys, src, cells[c]) == Err(Crash)
  }

  // Those are the details that mention the key and are not an object with it.
  lemma CrashesIff(keys: seq<string>, cells: Cells, action: Action, key: JsonKey)
    ensures CrashesOn(keys, cells, Details(action, key)) <==>
            exists c :: c in cells && c.Detail? && c.action == action && Mentions(cells[c], key)
                        && !(cells[c].Json? && key in cells[c].fields)
  {
    hide Mentions;
  }

  // The rows of one SELECT, each transformed in memory.
  method ReadSource(keys: seq<string>, cells: Cells, src: Source, nonces: nat -> nat)
    returns (writes: seq<Write>, failed: set<Cell>, crashed: bool)
    requires keys != [] && src in SOURCES
    ensures !crashed ==> SourceRead(keys, cells, src, writes, failed)
    ensures crashed ==> CrashesOn(keys, cells, src)
  {
    writes, failed, crashed := [], {}, false;
    var todo := set c | c in cells && Selects(src, c, cells[c]);
    while todo != {}
      invariant forall c | c in todo :: c in cells && Selects(src, c, cells[c])
      invariant forall c | c in cells && Selects(src, c, cells[c]) ::
                  if c in todo then c !in failed && c !in CellsOf(writes)
                  else if Read(keys, src, cells[c]).Ok? then c in CellsOf(writes) && c !in failed
                  else Fails(keys, cells, src, c) && c in failed && c !in CellsOf(writes)
      invariant forall c | c in failed || c in CellsOf(writes) :: c in cells && Selects(src, c, cells[c])
      invariant OneEach(writes) && forall w | w in writes :: Planned(keys, cells, w)
      decreases todo
    {
      var c :| c in todo;
      RotationKeepsTheReading(keys, src, nonces(|writes|), cells[c]);
      var moved := Transform(keys, src, nonces(|writes|), cells[c]);
      match moved {
        case Ok(v) =>
          TransformRenews(keys, src, nonces(|writes|), c, cells[c]);
          OneWriteMore(writes, Write(c, cells[c], v));
          writes := writes + [Write(c, cells[c], v)];
        case Err(InvalidToken) => failed := failed + {c};
        case Err(Crash) => return writes, failed, true;
      }
      todo := todo - {c};
      hide Transform, Read, Selects, Renewed, CellsOf;
    }
  }

  lemma OneWriteMore(writes: seq<Write>, w: Write)
    requires OneEach(writes) && w.cell !in CellsOf(writes)
    ensures OneEach(writes + [w]) && CellsOf(writes + [w]) == CellsOf(writes) + {w.cell}
  {
    forall i | 0 <= i < |writes| ensures writes[i].cell != w.cell {
      assert writes[i] in writes;
    }
    forall v | v in writes ensures v in writes + [w] {}
    assert w in writes + [w];
  }

  // ── Reading everything ────────────────────────────────────────────

  // After the first j SELECTs.
  ghost predicate Gathered(
    keys: seq<string>, cells: Cells, others: seq<Writes>, j: nat, writes: seq<Write>, failed: set<Cell>)
    requires keys != [] && j <= |SOURCES|
  {
    && FailedAre(keys, cells, others, j, failed)
    && WritesAre(keys, cells, others, j, writes)
    && Covered(cells, others, j, CellsOf(writes) + failed)
  }

  ghost predicate FailedAre(keys: seq<string>, cells: Cells, others: seq<Writes>, j: nat, failed: set<Cell>)
    requires j <= |SOURCES|
  {
    forall c :: c in failed <==> exists i :: 0 <= i < j && FailsAt(keys, cells, others, i, c)
  }

  ghost predicate WritesAre(keys: seq<string>, cells: Cells, others: seq<Writes>, j: nat, writes: seq<Write>)
    requires keys != [] && j <= |SOURCES|
  {
    && OneEach(writes)
    && (forall w | w in writes :: Sourced(j, w) && Renewed(keys, w.cell, w.was, w.now))
    && (forall w | w in writes :: Found(cells, others, j, w.cell))
    && (forall w | w in writes && w.cell !in Touched(others, |SOURCES|) :: w.cell in cells && w.was == cells[w.cell])
  }

  ghost predicate Covered(cells: Cells, others: seq<Writes>, j: nat, found: set<Cell>)
    requires j <= |SOURCES|
  {
    forall i, c | 0 <= i < j && SelectedAt(cells, others, i, c) :: c in found
  }

  // The i-th SELECT sees what the others have written by then.
  ghost predicate SelectedAt(cells: Cells, others: seq<Writes>, i: nat, c: Cell)
    requires i < |SOURCES|
  {
    var seen := Beside(cells, others, i + 1);
    c in seen && Selects(SOURCES[i], c, seen[c])
  }

  // One of the first j SELECTs has the cell.
  ghost predicate Found(cells: Cells, others: seq<Writes>, j: nat, c: Cell)
    requires j <= |SOURCES|
  {
    exists i :: 0 <= i < j && SelectedAt(cells, others, i, c)
  }

  ghost predicate FailsAt(keys: seq<string>, cells: Cells, others: seq<Writes>, i: nat, c: Cell)
    requires i < |SOURCES|
  {
    Fails(keys, Beside(cells, others, i + 1), SOURCES[i], c)
  }

  ghost predicate Sourced(j: nat, w: Write)
    requires j <= |SOURCES|
  {
    exists i :: 0 <= i < j && Selects(SOURCES[i], w.cell, w.was)
  }

  lemma SourcesDiffer(i: nat, j: nat)
    requires i < j < |SOURCES|
    ensures SOURCES[i] != SOURCES[j]
  {
  }

  lemma StaysSingle(j: nat, writes: seq<Write>, more: seq<Write>)
    requires j < |SOURCES| && OneEach(writes) && OneEach(more)
    requires forall w | w in writes :: Sourced(j, w)
    requires forall w | w in more :: Selects(SOURCES[j], w.cell, w.was)
    ensures OneEach(writes + more)
  {
    hide Selects;
    forall m, n | 0 <= m < |writes| && 0 <= n < |more| ensures writes[m].cell != more[n].cell {
      var v, w := writes[m], more[n];
      assert v in writes && w in more;
      var i :| 0 <= i < j && Selects(SOURCES[i], v.cell, v.was);
      if v.cell == w.cell {
        OneSource(SOURCES[i], SOURCES[j], v.cell, v.was, w.was);
        SourcesDiffer(i, j);
        assert false;
      }
    }
  }

  lemma CellsOfBoth(writes: seq<Write>, more: seq<Write>)
    ensures CellsOf(writes + more) == CellsOf(writes) + CellsOf(more)
  {
    forall w ensures w in writes + more <==> w in writes || w in more {}
  }

  lemma FoundMore(cells: Cells, others: seq<Writes>, j: nat, writes: seq<Write>, more: seq<Write>)
    requires j < |SOURCES| && forall w | w in writes :: Found(cells, others, j, w.cell)
    requires var seen := Beside(cells, others, j + 1);
             forall w | w in more :: w.cell in seen && w.was == seen[w.cell] && Selects(SOURCES[j], w.cell, w.was)
    ensures forall w | w in writes + more :: Found(cells, others, j + 1, w.cell)
  {
    hide Selects, Beside;
    forall w | w in writes + more ensures Found(cells, others, j + 1, w.cell) {
      if w in writes {
        var i :| 0 <= i < j && SelectedAt(cells, others, i, w.cell);
      } else {
        assert SelectedAt(cells, others, j, w.cell);
      }
    }
  }

  lemma LastIsNew(writes: seq<Write>, n: nat)
    requires OneEach(writes) && |writes| == n + 1
    ensures OneEach(writes[..n]) && writes[n].cell !in CellsOf(writes[..n])
  {
    forall v | v in writes[..n] ensures v.cell != writes[n].cell {
      var i :| 0 <= i < n && writes[i] == v;
    }
  }

  lemma LastIsAdded(writes: seq<Write>, n: nat)
    requires |writes| == n + 1
    ensures CellsOf(writes) == CellsOf(writes[..n]) + {writes[n].cell}
  {
    assert writes[..n] + [writes[n]] == writes;
    CellsOfBoth(writes[..n], [writes[n]]);
    assert writes[n] in [writes[n]];
    assert CellsOf([writes[n]]) == {writes[n].cell};
  }

  lemma {:induction false} OneCellEach(writes: seq<Write>)
    requires OneEach(writes)
    ensures |CellsOf(writes)| == |writes|
    decreases |writes|
  {
    if writes != [] {
      var n := |writes| - 1;
      LastIsNew(writes, n);
      LastIsAdded(writes, n);
      OneCellEach(writes[..n]);
      hide CellsOf, OneEach;
    }
  }

  // The writes of a completed first pass, without failures: one for each cell found.
  lemma WritesAreFound(keys: seq<string>, cells: Cells, others: seq<Writes>, writes: seq<Write>)
    requires keys != [] && Gathered(keys, cells, others, |SOURCES|, writes, {})
    ensures |CellsOf(writes)| == |writes|
    ensures forall c :: c in CellsOf(writes) <==> Found(cells, others, |SOURCES|, c)
  {
    OneCellEach(writes);
    hide Renewed, SelectedAt, Sourced;
    forall c ensures c in CellsOf(writes) <==> Found(cells, others, |SOURCES|, c) {
      if Found(cells, others, |SOURCES|, c) {
        var i :| 0 <= i < |SOURCES| && SelectedAt(cells, others, i, c);
      }
    }
  }

  lemma WritesMore(
    keys: seq<string>, cells: Cells, others: seq<Writes>, j: nat, writes: seq<Write>, more: seq<Write>)
    requires keys != [] && j < |SOURCES| && WritesAre(keys, cells, others, j, writes) && OneEach(more)
    requires var seen := Beside(cells, others, j + 1);
             forall w | w in more :: Planned(keys, seen, w) && Selects(SOURCES[j], w.cell, w.was)
    ensures WritesAre(keys, cells, others, j + 1, writes + more)
  {
    var all := writes + more;
    hide Renewed, Selects;
    forall w | w in all ensures Sourced(j + 1, w) && Renewed(keys, w.cell, w.was, w.now) {
      if w in writes {
        var i :| 0 <= i < j && Selects(SOURCES[i], w.cell, w.was);
      }
    }
    FoundMore(cells, others, j, writes, more);
    StaysSingle(j, writes, more);
    TouchedGrows(others, j + 1, |SOURCES|);
    forall w | w in all && w.cell !in Touched(others, |SOURCES|) ensures w.cell in cells && w.was == cells[w.cell] {
      if w !in writes {
        UntouchedBeside(cells, others, j + 1, w.cell);
      }
    }
  }

  lemma FailsMore(
    keys: seq<string>, cells: Cells, others: seq<Writes>, j: nat, failed: set<Cell>, more: set<Cell>)
    requires j < |SOURCES| && FailedAre(keys, cells, others, j, failed)
    requires forall c :: c in more <==> Fails(keys, Beside(cells, others, j + 1), SOURCES[j], c)
    ensures FailedAre(keys, cells, others, j + 1, failed + more)
  {
    hide Fails, Beside;
    forall c ensures c in failed + more <==> exists i :: 0 <= i < j + 1 && FailsAt(keys, cells, others, i, c) {
      assert c in more <==> FailsAt(keys, cells, others, j, c);
    }
  }

  lemma PlannedAreSelected(keys: seq<string>, cells: Cells, src: Source, writes: seq<Write>)
    requires keys != [] && forall w | w in writes :: Planned(keys, cells, w)
    requires forall c :: c in CellsOf(writes) <==> Reads(keys, cells, src, c)
    ensures forall w | w in writes :: Selects(src, w.cell, w.was)
  {
    hide Selects, Read, Renewed;
    forall w | w in writes ensures Selects(src, w.cell, w.was) {
      assert w.cell in CellsOf(writes);
      assert Reads(keys, cells, src, w.cell);
    }
  }

  lemma GathersMore(
    keys: seq<string>, cells: Cells, others: seq<Writes>, j: nat, writes: seq<Write>, failed: set<Cell>,
    more: seq<Write>, moreFailed: set<Cell>)
    requires keys != [] && j < |SOURCES| && Gathered(keys, cells, others, j, writes, failed)
    requires SourceRead(keys, Beside(cells, others, j + 1), SOURCES[j], more, moreFailed)
    ensures Gathered(keys, cells, others, j + 1, writes + more, failed + moreFailed)
  {
    CellsOfBoth(writes, more);
    PlannedAreSelected(keys, Beside(cells, others, j + 1), SOURCES[j], more);
    WritesMore(keys, cells, others, j, writes, more);
    FailsMore(keys, cells, others, j, failed, moreFailed);
    hide WritesAre, FailedAre, Fails, Planned, CellsOf, Selects, Beside;
    var found := CellsOf(writes) + CellsOf(more) + (failed + moreFailed);
    forall i, c | 0 <= i < j + 1 && SelectedAt(cells, others, i, c) ensures c in found {
      if i == j {
        assert c in moreFailed || c in CellsOf(more);
      }
    }
  }

  // ── Writing ───────────────────────────────────────────────────────

  // When n statements have begun and these cells' updates are done.
  ghost predicate Landing(keys: seq<string>, was: Cells, cells: Cells, others: seq<Writes>, n: nat, done: set<Cell>)
    requires keys != []
  {
    forall c :: LandedCell(keys, was, cells, Touched(others, n), c in done, c)
  }

  ghost predicate LandedCell(
    keys: seq<string>, was: Cells, cells: Cells, touched: set<Cell>, done: bool, c: Cell)
    requires keys != []
  {
    if c in touched then c in cells ==> Current(keys, c, cells[c])
    else
      && (c in cells <==> c in was)
      && (c in was ==> if done then Renewed(keys, c, was[c], cells[c]) else cells[c] == was[c])
  }

  lemma BeforeAnyUpdate(keys: seq<string>, was: Cells, others: seq<Writes>, n: nat)
    requires keys != [] && SealsCurrent(keys, others)
    ensures Landing(keys, was, Beside(was, others, n), others, n, {})
  {
    forall c ensures LandedCell(keys, was, Beside(was, others, n), Touched(others, n), false, c) {
      if c in Touched(others, n) {
        if c in Beside(was, others, n) {
          TouchedIsCurrent(keys, was, others, n, c);
        }
      } else {
        UntouchedBeside(was, others, n, c);
      }
    }
  }

  lemma OthersLand(
    keys: seq<string>, was: Cells, cells: Cells, others: seq<Writes>, n: nat, done: set<Cell>)
    requires keys != [] && SealsCurrent(keys, others) && Landing(keys, was, cells, others, n, done)
    ensures Landing(keys, was, Written(cells, Before(others, n)), others, n + 1, done)
  {
    var after := Written(cells, Before(others, n));
    hide Current, Renewed;
    forall c ensures LandedCell(keys, was, after, Touched(others, n + 1), c in done, c) {
      assert LandedCell(keys, was, cells, Touched(others, n), c in done, c);
    }
  }

  lemma RenewedIsCurrent(keys: seq<string>, c: Cell, was: Value, now: Value)
    requires keys != [] && Renewed(keys, c, was, now)
    ensures Current(keys, c, now)
  {
  }

  // What the UPDATE's guard asks.
  predicate StillThere(cells: Cells, w: Write) { w.cell in cells && cells[w.cell] == w.was }

  lemma UpdateLands(
    keys: seq<string>, was: Cells, cells: Cells, others: seq<Writes>, n: nat, done: set<Cell>, w: Write)
    requires keys != [] && Landing(keys, was, cells, others, n, done)
    requires w.cell !in done && Renewed(keys, w.cell, w.was, w.now)
    requires w.cell !in Touched(others, n) ==> w.cell in was && w.was == was[w.cell]
    ensures var updated := if StillThere(cells, w) then cells[w.cell := w.now] else cells;
            Landing(keys, was, updated, others, n, done + {w.cell})
    ensures w.cell !in Touched(others, n) ==> StillThere(cells, w)
  {
    RenewedIsCurrent(keys, w.cell, w.was, w.now);
    assert LandedCell(keys, was, cells, Touched(others, n), false, w.cell);
    hide Current, Renewed;
    var updated := if StillThere(cells, w) then cells[w.cell := w.now] else cells;
    forall c ensures LandedCell(keys, was, updated, Touched(others, n), c in done + {w.cell}, c) {
      assert LandedCell(keys, was, cells, Touched(others, n), c in done, c);
    }
  }

  ghost function EverTouched(others: seq<Writes>): set<Cell> { Touched(others, |others|) }

  lemma {:induction false} TouchedAtMost(others: seq<Writes>, n: nat)
    ensures Touched(others, n) <= EverTouched(others)
  {
    if n <= |others| {
      TouchedGrows(others, n, |others|);
    } else {
      TouchedAtMost(others, n - 1);
    }
  }

  // What a finished rotation leaves.
  ghost predicate AllCurrent(keys: seq<string>, was: Cells, cells: Cells, others: seq<Writes>)
    requires keys != []
  {
    && (forall c | c in cells :: Current(keys, c, cells[c]))
    && (forall c | c !in EverTouched(others) ::
          && (c in cells <==> c in was)
          && (c in was ==> Renewed(keys, c, was[c], cells[c]) && (cells[c] != was[c] ==> IsSelected(c, was[c]))))
  }

  predicate IsSelected(c: Cell, v: Value) { exists src :: src in SOURCES && Selects(src, c, v) }

  lemma EndsCurrent(
    keys: seq<string>, was: Cells, cells: Cells, others: seq<Writes>, n: nat, writes: seq<Write>)
    requires keys != [] && |SOURCES| <= n
    requires Gathered(keys, was, others, |SOURCES|, writes, {})
    requires Landing(keys, was, cells, others, n, CellsOf(writes[..|writes|]))
    ensures AllCurrent(keys, was, cells, others)
  {
    TouchedAtMost(others, n);
    assert writes[..|writes|] == writes;
    forall c ensures c in cells ==> Current(keys, c, cells[c])
      ensures c !in Touched(others, n) ==> (c in cells <==> c in was) && (c in was ==> Renewed(keys, c, was[c], cells[c]))
      ensures c !in Touched(others, n) && c in was && cells[c] != was[c] ==> IsSelected(c, was[c])
    {
      assert LandedCell(keys, was, cells, Touched(others, n), c in CellsOf(writes), c);
      if c !in Touched(others, n) && c in was {
        if c in CellsOf(writes) {
          RenewedIsCurrent(keys, c, was[c], cells[c]);
          WrittenIsSelected(keys, was, others, n, writes, c);
        } else {
          NotSelected(keys, was, others, n, writes, c);
        }
      }
    }
  }

  lemma WrittenIsSelected(keys: seq<string>, was: Cells, others: seq<Writes>, n: nat, writes: seq<Write>, c: Cell)
    requires keys != [] && |SOURCES| <= n && Gathered(keys, was, others, |SOURCES|, writes, {})
    requires c in was && c !in Touched(others, n) && c in CellsOf(writes)
    ensures IsSelected(c, was[c])
  {
    var w :| w in writes && w.cell == c;
    TouchedGrows(others, |SOURCES|, n);
    var i :| 0 <= i < |SOURCES| && Selects(SOURCES[i], w.cell, w.was);
    assert SOURCES[i] in SOURCES;
  }

  // A cell that nobody touched and no write is planned for is in no source.
  lemma NotSelected(keys: seq<string>, was: Cells, others: seq<Writes>, n: nat, writes: seq<Write>, c: Cell)
    requires keys != [] && |SOURCES| <= n && Gathered(keys, was, others, |SOURCES|, writes, {})
    requires c in was && c !in Touched(others, n) && c !in CellsOf(writes)
    ensures forall src | src in SOURCES :: !Selects(src, c, was[c])
  {
    forall src | src in SOURCES ensures !Selects(src, c, was[c]) {
      var i :| 0 <= i < |SOURCES| && SOURCES[i] == src;
      TouchedGrows(others, i + 1, n);
      UntouchedBeside(was, others, i + 1, c);
      assert SelectedAt(was, others, i, c) ==> c in CellsOf(writes);
    }
  }

  lemma BesideOneMore(cells: Cells, others: seq<Writes>, n: nat)
    ensures Beside(cells, others, n + 1) == Written(Beside(cells, others, n), Before(others, n))
  {
  }

  lemma NothingGathered(keys: seq<string>, cells: Cells, others: seq<Writes>)
    requires keys != []
    ensures Gathered(keys, cells, others, 0, [], {})
  {
  }

  lemma NextWrite(keys: seq<string>, was: Cells, others: seq<Writes>, writes: seq<Write>, m: nat)
    requires keys != [] && m < |writes| && WritesAre(keys, was, others, |SOURCES|, writes)
    ensures var w := writes[m];
            && w.cell !in CellsOf(writes[..m]) && CellsOf(writes[..m + 1]) == CellsOf(writes[..m]) + {w.cell}
            && Renewed(keys, w.cell, w.was, w.now)
            && (w.cell !in Touched(others, |SOURCES| + m + 1) ==> w.cell in was && w.was == was[w.cell])
  {
    var w := writes[m];
    assert w in writes;
    hide Renewed, Sourced;
    assert writes[..m + 1] == writes[..m] + [w];
    CellsOfBoth(writes[..m], [w]);
    assert w in [w] && CellsOf([w]) == {w.cell};
    TouchedGrows(others, |SOURCES|, |SOURCES| + m + 1);
  }

  lemma UpdatesOneMore(
    keys: seq<string>, was: Cells, cells: Cells, others: seq<Writes>, writes: seq<Write>, m: nat)
    requires keys != [] && SealsCurrent(keys, others) && m < |writes|
    requires Gathered(keys, was, others, |SOURCES|, writes, {})
    requires Landing(keys, was, cells, others, |SOURCES| + m, CellsOf(writes[..m]))
    ensures var w, now := writes[m], Written(cells, Before(others, |SOURCES| + m));
            && w.cell !in CellsOf(writes[..m]) && CellsOf(writes[..m + 1]) == CellsOf(writes[..m]) + {w.cell}
            && (StillThere(now, w) ==>
                  Landing(keys, was, now[w.cell := w.now], others, |SOURCES| + m + 1, CellsOf(writes[..m + 1])))
            && (!StillThere(now, w) ==>
                  && Landing(keys, was, now, others, |SOURCES| + m + 1, CellsOf(writes[..m + 1]))
                  && w.cell in EverTouched(others))
  {
    var w, n, done := writes[m], |SOURCES| + m, CellsOf(writes[..m]);
    NextWrite(keys, was, others, writes, m);
    OthersLand(keys, was, cells, others, n, done);
    hide Landing, Renewed, Gathered, CellsOf;
    UpdateLands(keys, was, Written(cells, Before(others, n)), others, n + 1, done, w);
    TouchedAtMost(others, n + 1);
  }

  // The cells whose update found another value.
  ghost predicate LeftAlone(left: set<Cell>, others: seq<Writes>, done: seq<Write>, skipped: nat) {
    left <= EverTouched(others) && left <= CellsOf(done) && |left| == skipped
  }

  lemma LeavesOneMore(left: set<Cell>, others: seq<Writes>, writes: seq<Write>, m: nat, skipped: nat)
    requires m < |writes| && LeftAlone(left, others, writes[..m], skipped)
    requires CellsOf(writes[..m + 1]) == CellsOf(writes[..m]) + {writes[m].cell}
    requires writes[m].cell !in CellsOf(writes[..m])
    ensures LeftAlone(left, others, writes[..m + 1], skipped)
    ensures writes[m].cell in EverTouched(others) ==>
              LeftAlone(left + {writes[m].cell}, others, writes[..m + 1], skipped + 1)
  {
    hide CellsOf, EverTouched;
  }

  lemma AtMostTouched(left: set<Cell>, others: seq<Writes>, done: seq<Write>, skipped: nat)
    requires LeftAlone(left, others, done, skipped)
    ensures skipped <= |EverTouched(others)|
  {
    Facts.SubsetSize(left, EverTouched(others));
  }

  class Database {
    var cells: Cells

    constructor (cells: Cells)
      ensures this.cells == cells
    {
      this.cells := cells;
    }

    // What the application has written since the script's last statement.
    method Meanwhile(others: seq<Writes>, n: nat)
      modifies this
      ensures cells == Written(old(cells), Before(others, n))
    {
      cells := Written(cells, Before(others, n));
    }

    // The first pass: every source is read and transformed in memory.
    method ReadAll(keys: seq<string>, others: seq<Writes>, nonces: nat -> nat)
      returns (writes: seq<Write>, failed: set<Cell>, crashed: bool, ghost read: nat)
      requires keys != []
      modifies this
      ensures read <= |SOURCES| && cells == Beside(old(cells), others, read)
      ensures !crashed ==> read == |SOURCES| && Gathered(keys, old(cells), others, read, writes, failed)
      ensures crashed ==> 0 < read && CrashesOn(keys, cells, SOURCES[read - 1])
    {
      writes, failed, crashed, read := [], {}, false, 0;
      ghost var was := cells;
      NothingGathered(keys, was, others);
      var j := 0;
      assert cells == Beside(was, others, 0);
      hide *;
      while j < |SOURCES|
        invariant j == read <= |SOURCES| && cells == Beside(was, others, read)
        invariant Gathered(keys, was, others, j, writes, failed) && !crashed
      {
        hide *;
        Meanwhile(others, j);
        read := j + 1;
        BesideOneMore(was, others, j);
        var more, moreFailed, stop := ReadSource(keys, cells, SOURCES[j], nonces);
        if stop {
          return writes, failed, true, read;
        }
        GathersMore(keys, was, others, j, writes, failed, more, moreFailed);
        writes, failed := writes + more, failed + moreFailed;
        j := j + 1;
      }
    }

    // A guarded UPDATE, after what the others wrote meanwhile.
    method UpdateOne(others: seq<Writes>, n: nat, w: Write) returns (updated: bool)
      modifies this
      ensures var now := Written(old(cells), Before(others, n));
              && updated == StillThere(now, w)
              && cells == if StillThere(now, w) then now[w.cell := w.now] else now
    {
      Meanwhile(others, n);
      updated := w.cell in cells && cells[w.cell] == w.was;
      if updated {
        cells := cells[w.cell := w.now];
      }
    }

    // The second pass: each row is updated unless it has changed since.
    method WriteAll(keys: seq<string>, others: seq<Writes>, writes: seq<Write>, ghost was: Cells)
      returns (skipped: nat)
      requires keys != [] && SealsCurrent(keys, others)
      requires Gathered(keys, was, others, |SOURCES|, writes, {})
      requires cells == Beside(was, others, |SOURCES|)
      modifies this
      ensures AllCurrent(keys, was, cells, others)
      ensures skipped <= |EverTouched(others)| && skipped <= |writes|
    {
      skipped := 0;
      ghost var left: set<Cell> := {};
      assert LeftAlone(left, others, writes[..0], 0);
      BeforeAnyUpdate(keys, was, others, |SOURCES|);
      assert CellsOf(writes[..0]) == {};
      hide *;
      for m := 0 to |writes|
        invariant Landing(keys, was, cells, others, |SOURCES| + m, CellsOf(writes[..m]))
        invariant LeftAlone(left, others, writes[..m], skipped) && skipped <= m
      {
        UpdatesOneMore(keys, was, cells, others, writes, m);
        LeavesOneMore(left, others, writes, m, skipped);
        var updated := UpdateOne(others, |SOURCES| + m, writes[m]);
        if !updated {
          skipped := skipped + 1;
          left := left + {writes[m].cell};
        }
      }
      EndsCurrent(keys, was, cells, others, |SOURCES| + |writes|, writes);
      AtMostTouched(left, others, writes[..|writes|], skipped);
    }

    // main, with encryption_keys() and whether ENCRYPTION_KEY itself is set.
    method Rotate(keys: seq<string>, own: bool, others: seq<Writes>, nonces: nat -> nat) returns (outcome: Outcome)
      requires keys != [] && SealsCurrent(keys, others)
      modifies this
      ensures outcome.NothingToRotate? <==> !own || |keys| == 1
      ensures !outcome.Completed? ==>
                exists n: nat :: n <= |SOURCES| && cells == Beside(old(cells), others, n)
      ensures outcome.Crashed? ==>
                exists i :: 0 <= i < |SOURCES| && CrashesOn(keys, Beside(old(cells), others, i + 1), SOURCES[i])
      ensures outcome.Refused? ==> outcome.failed != {}
      ensures outcome.Refused? ==>
                forall c :: c in outcome.failed <==> exists i :: 0 <= i < |SOURCES| && FailsAt(keys, old(cells), others, i, c)
      ensures outcome.Completed? ==> AllCurrent(keys, old(cells), cells, others)
      ensures outcome.Completed? ==> outcome.skipped <= |EverTouched(others)|
      ensures outcome.Completed? ==>
                exists found: set<Cell> ::
                  && outcome.rotated + outcome.skipped == |found|
                  && forall c :: c in found <==> Found(old(cells), others, |SOURCES|, c)
    {
      if !own || |keys| == 1 {
        assert cells == Beside(cells, others, 0);
        return NothingToRotate;
      }
      ghost var was := cells;
      var writes, failed, crashed, read := ReadAll(keys, others, nonces);
      if crashed {
        assert CrashesOn(keys, Beside(was, others, read - 1 + 1), SOURCES[read - 1]);
        return Crashed;
      }
      if failed != {} {
        return Refused(failed);
      }
      WritesAreFound(keys, was, others, writes);
      hide Gathered, Found;
      var skipped := WriteAll(keys, others, writes, was);
      outcome := Completed(|writes| - skipped, skipped);
    }
  }

  // ── What follows ──────────────────────────────────────────────────

  // What the script selects, table by table.
  lemma SelectedIff(c: Cell, v: Value)
    ensures IsSelected(c, v) <==>
              match c
              case Dek(_) => true
              case Field(_, _) => true
              case Totp(_) => true
              case Detail(IdentityRevealed, _) => Mentions(v, Reason)
              case Detail(ContentSearched, _) => Mentions(v, Term)
              case _ => false
  {
    match c
    case Dek(_) => assert SOURCES[0] == Deks && Selects(Deks, c, v);
    case Field(column, _) =>
      assert FieldsOf(ConfidentialName) in SOURCES && FieldsOf(ConfidentialContact) in SOURCES && FieldsOf(SecureEmail) in SOURCES;
      assert column == ConfidentialName || column == ConfidentialContact || column == SecureEmail;
      assert Selects(FieldsOf(column), c, v);
    case Totp(_) => assert Totps in SOURCES && Selects(Totps, c, v);
    case Detail(action, _) =>
      assert Details(IdentityRevealed, Reason) in SOURCES && Details(ContentSearched, Term) in SOURCES;
      assert Selects(Details(IdentityRevealed, Reason), c, v) <==> action.IdentityRevealed? && Mentions(v, Reason);
      assert Selects(Details(ContentSearched, Term), c, v) <==> action.ContentSearched? && Mentions(v, Term);
    case _ =>
  }

  // Sealed under the current key, for that use.
  predicate IsCurrentText(keys: seq<string>, use: Use, t: Text)
    requires keys != []
  {
    t.Sealed? && t.key == Derived(use, keys[0])
  }

  // After a completed rotation every wrapped key, contact field, authenticator
  // secret and audited reason or search term needs the current key only.
  lemma NothingIsLeftBehind(keys: seq<string>, was: Cells, cells: Cells, others: seq<Writes>, c: Cell)
    requires keys != [] && AllCurrent(keys, was, cells, others) && c in cells
    ensures c.Dek? ==> cells[c].Plain? && IsCurrentText(keys, Wrapping, cells[c].text)
    ensures c.Field? || c.Totp? ==> cells[c].Plain? && IsCurrentText(keys, Fields, cells[c].text)
    ensures c.Detail? && c.action == IdentityRevealed && Mentions(cells[c], Reason) ==>
              cells[c].Json? && Reason in cells[c].fields && IsCurrentText(keys, Fields, cells[c].fields[Reason])
    ensures c.Detail? && c.action == ContentSearched && Mentions(cells[c], Term) ==>
              cells[c].Json? && Term in cells[c].fields && IsCurrentText(keys, Fields, cells[c].fields[Term])
  {
    assert Current(keys, c, cells[c]);
    SelectedIff(c, cells[c]);
    hide AllCurrent;
    if IsSelected(c, cells[c]) {
      var src :| src in SOURCES && Selects(src, c, cells[c]);
      assert Read([keys[0]], src, cells[c]).Ok?;
    }
  }

  // What the application did not write meanwhile says what it said before, and
  // what the script does not select is what it was.
  lemma NothingIsGarbled(keys: seq<string>, was: Cells, cells: Cells, others: seq<Writes>, c: Cell)
    requires keys != [] && AllCurrent(keys, was, cells, others) && c !in EverTouched(others)
    ensures c in cells <==> c in was
    ensures c in was && !IsSelected(c, was[c]) ==> cells[c] == was[c]
    ensures c in was && c.Dek? ==>
              was[c].Plain? && cells[c].Plain? && Open([keys[0]], Wrapping, cells[c].text) == Open(keys, Wrapping, was[c].text)
    ensures c in was && (c.Field? || c.Totp?) ==>
              was[c].Plain? && cells[c].Plain? && Open([keys[0]], Fields, cells[c].text) == Open(keys, Fields, was[c].text)
    ensures c in was && c.Detail? && IsSelected(c, was[c]) ==>
              var key := if c.action.IdentityRevealed? then Reason else Term;
              && was[c].Json? && cells[c].Json? && key in was[c].fields && key in cells[c].fields
              && Open([keys[0]], Fields, cells[c].fields[key]) == Open(keys, Fields, was[c].fields[key])
              && cells[c].fields - {key} == was[c].fields - {key}
  {
    if c in was {
      assert Renewed(keys, c, was[c], cells[c]);
      assert cells[c] != was[c] ==> IsSelected(c, was[c]);
      SelectedIff(c, was[c]);
      hide AllCurrent;
      if IsSelected(c, was[c]) {
        var src :| src in SOURCES && Selects(src, c, was[c]);
        assert Read([keys[0]], src, cells[c]).Ok? && Read([keys[0]], src, cells[c]) == Read(keys, src, was[c]);
      }
    }
  }

  // After a completed rotation ENCRYPTION_KEY_PREVIOUS can be emptied: each
  // report's own fields, which the script never touches, read as they did.
  lemma ReportsReadTheSame(
    keys: seq<string>, was: Cells, cells: Cells, others: seq<Writes>, report: nat, field: Text)
    requires keys != [] && AllCurrent(keys, was, cells, others)
    requires Dek(report) in was && Dek(report) !in EverTouched(others)
    requires was[Dek(report)].Plain? && Open(keys, Wrapping, was[Dek(report)].text).Ok?
    ensures Dek(report) in cells && cells[Dek(report)].Plain?
    ensures OpenField([keys[0]], cells[Dek(report)].text, field) == OpenField(keys, was[Dek(report)].text, field)
  {
    var c := Dek(report);
    assert Renewed(keys, c, was[c], cells[c]);
    assert SOURCES[0] == Deks;
    assert Selects(Deks, c, was[c]);
  }

  // A second run finds nothing it cannot read: it neither refuses nor crashes.
  lemma SafeToRunTwice(keys: seq<string>, cells: Cells, src: Source)
    requires keys != [] && src in SOURCES && forall c | c in cells :: Current(keys, c, cells[c])
    ensures !CrashesOn(keys, cells, src) && forall c :: !Fails(keys, cells, src, c)
  {
    forall c | c in cells && Selects(src, c, cells[c]) ensures Read(keys, src, cells[c]).Ok? {
      assert Current(keys, c, cells[c]);
    }
  }

}
