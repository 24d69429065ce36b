/**
 * The retention job (app/services/retention.py): it selects closed reports past
 * their period, then deletes each by its id alone, while requests load rows
 * and commit at any time and other replicas may run it too.
 */
module Cleanup {
  import opened Options
  import opened Calendar
  import opened Lifecycle
  import opened Histories
  import Deadlines
  import Retention

  // ── One run, alone ────────────────────────────────────────────────

  // The audit entry that outlives a report.
  datatype Entry = Entry(report: nat, closed: Option<Moment>, days: nat)

  function PickedIds(rows: map<nat, Row>, now: Moment, days: nat): set<nat> {
    set id | id in rows && Picked(rows[id], now, days)
  }

  function IdsOf(order: seq<nat>): set<nat> { set id | id in order }

  // The rows of a SELECT, in the order the database gives them.
  ghost predicate Lists(order: seq<nat>, ids: set<nat>) {
    IdsOf(order) == ids && forall i, j | 0 <= i < j < |order| :: order[i] != order[j]
  }

  function ClosedAt(rows: map<nat, Row>, id: nat): Option<Moment> { if id in rows then rows[id].closed else None }

  function Entries(rows: map<nat, Row>, order: seq<nat>, days: nat): seq<Entry> {
    if order == [] then []
    else
      var id := order[|order| - 1];
      Entries(rows, order[..|order| - 1], days) + [Entry(id, ClosedAt(rows, id), days)]
  }

  class Archive {
    var rows: map<nat, Row>
    var log: seq<Entry>

    constructor (rows: map<nat, Row>)
      ensures this.rows == rows && log == []
    {
      this.rows, log := rows, [];
    }

    // run_retention_cleanup, with nobody beside it: exactly the reports past
    // their period go, each with one entry of its closure.
    method RunRetentionCleanup(now: Moment, days: nat, order: seq<nat>) returns (deleted: nat)
      requires Lists(order, PickedIds(rows, now, days))
      modifies this
      ensures rows == old(rows) - PickedIds(old(rows), now, days)
      ensures forall id :: id in rows <==> id in old(rows) && !Picked(old(rows)[id], now, days)
      ensures log == old(log) + Entries(old(rows), order, days)
      ensures deleted == |order|
    {
      deleted := 0;
      for i := 0 to |order|
        invariant rows == old(rows) - IdsOf(order[..i])
        invariant log == old(log) + Entries(old(rows), order[..i], days)
        invariant deleted == i
      {
        var id := order[i];
        OneReportMore(order, i);
        OneEntryMore(old(rows), order, i, days);
        assert id in PickedIds(old(rows), now, days);
        hide Entries, IdsOf, PickedIds;
        log := log + [Entry(id, rows[id].closed, days)];
        rows := rows - {id};
        deleted := deleted + 1;
      }
      assert order[..|order|] == order;
    }
  }

  lemma OneReportMore(order: seq<nat>, i: nat)
    requires i < |order| && forall m, n | 0 <= m < n < |order| :: order[m] != order[n]
    ensures IdsOf(order[..i + 1]) == IdsOf(order[..i]) + {order[i]} && order[i] !in IdsOf(order[..i])
    ensures order[i] in IdsOf(order)
  {
    assert order[..i + 1] == order[..i] + [order[i]];
  }

  lemma OneEntryMore(rows: map<nat, Row>, order: seq<nat>, i: nat, days: nat)
    requires i < |order|
    ensures Entries(rows, order[..i + 1], days) ==
            Entries(rows, order[..i], days) + [Entry(order[i], ClosedAt(rows, order[i]), days)]
  {
    assert order[..i + 1][..i] == order[..i];
  }

  // ── Select and delete, with requests between ──────────────────────

  // A report as the requests that have committed on it.
  datatype History = History(today: Moment, changes: seq<Change>)

  function Now(h: History): Row { RowAfter(h.today, h.changes) }

  // What a job selected: each report's history was this long.
  datatype Job = Job(now: Moment, seen: map<nat, nat>)

  // A deleted report, and when it was selected.
  datatype Gone = Gone(history: History, now: Moment, seen: nat)

  datatype World = World(reports: map<nat, History>, jobs: map<nat, Job>, gone: map<nat, Gone>)

  datatype Step =
    | File(id: nat, today: Moment)
    | Serve(id: nat, change: Change)
    | Select(j: nat, now: Moment)
    | Delete(j: nat, id: nat)

  const NOTHING := World(map[], map[], map[])

  predicate Enabled(s: World, a: Step) {
    match a
    case File(id, _) => id !in s.reports && id !in s.gone
    case Serve(id, _) => id in s.reports
    case Select(j, _) => j !in s.jobs
    case Delete(j, id) => j in s.jobs && id in s.jobs[j].seen && id in s.reports
  }

  function Apply(days: nat, s: World, a: Step): World
    requires Enabled(s, a)
  {
    match a
    case File(id, today) => s.(reports := s.reports[id := History(today, [])])
    case Serve(id, change) =>
      var h := s.reports[id];
      s.(reports := s.reports[id := h.(changes := h.changes + [change])])
    case Select(j, now) =>
      var seen := map id | id in s.reports && Picked(Now(s.reports[id]), now, days) :: |s.reports[id].changes|;
      s.(jobs := s.jobs[j := Job(now, seen)])
    case Delete(j, id) =>
      s.(reports := s.reports - {id}, gone := s.gone[id := Gone(s.reports[id], s.jobs[j].now, s.jobs[j].seen[id])])
  }

  predicate Run(days: nat, s: World, steps: seq<Step>)
    decreases |steps|
  {
    steps == [] || (Enabled(s, steps[0]) && Run(days, Apply(days, s, steps[0]), steps[1..]))
  }

  function End(days: nat, s: World, steps: seq<Step>): World
    requires Run(days, s, steps)
    decreases |steps|
  {
    if steps == [] then s else End(days, Apply(days, s, steps[0]), steps[1..])
  }

  // At so many requests the report was past its period.
  ghost predicate WasPicked(days: nat, h: History, now: Moment, seen: nat) {
    seen <= |h.changes| && Picked(RowAfter(h.today, h.changes[..seen]), now, days)
  }

  ghost predicate Justified(days: nat, s: World) {
    && (forall j, id | j in s.jobs && id in s.jobs[j].seen && id in s.reports ::
          WasPicked(days, s.reports[id], s.jobs[j].now, s.jobs[j].seen[id]))
    && (forall j, id | j in s.jobs && id in s.jobs[j].seen :: id in s.reports || id in s.gone)
    && (forall id | id in s.gone :: WasPicked(days, s.gone[id].history, s.gone[id].now, s.gone[id].seen))
  }

  lemma PickedBefore(days: nat, h: History, change: Change, now: Moment, seen: nat)
    requires WasPicked(days, h, now, seen)
    ensures WasPicked(days, h.(changes := h.changes + [change]), now, seen)
  {
    assert (h.changes + [change])[..seen] == h.changes[..seen];
  }

  lemma JustPicked(days: nat, h: History, now: Moment)
    requires Picked(Now(h), now, days)
    ensures WasPicked(days, h, now, |h.changes|)
  {
    assert h.changes[..|h.changes|] == h.changes;
  }

  lemma JobsStayJustified(days: nat, s: World, a: Step, j: nat, id: nat)
    requires Justified(days, s) && Enabled(s, a)
    requires var t := Apply(days, s, a); j in t.jobs && id in t.jobs[j].seen && id in t.reports
    ensures var t := Apply(days, s, a); WasPicked(days, t.reports[id], t.jobs[j].now, t.jobs[j].seen[id])
  {
    if a.Select? && a.j == j {
      JustPicked(days, s.reports[id], a.now);
    } else if a.Serve? && a.id == id {
      PickedBefore(days, s.reports[id], a.change, s.jobs[j].now, s.jobs[j].seen[id]);
    }
    hide WasPicked, Picked, Now;
  }

  lemma StaysJustified(days: nat, s: World, a: Step)
    requires Justified(days, s) && Enabled(s, a)
    ensures Justified(days, Apply(days, s, a))
  {
    hide WasPicked, Picked, Now;
    var t := Apply(days, s, a);
    forall j, id | j in t.jobs && id in t.jobs[j].seen && id in t.reports
      ensures WasPicked(days, t.reports[id], t.jobs[j].now, t.jobs[j].seen[id])
    {
      JobsStayJustified(days, s, a, j, id);
    }
  }

  lemma {:induction false} RunStaysJustified(days: nat, s: World, steps: seq<Step>)
    requires Justified(days, s) && Run(days, s, steps)
    ensures Justified(days, End(days, s, steps))
    decreases |steps|
  {
    if steps != [] {
      StaysJustified(days, s, steps[0]);
      RunStaysJustified(days, Apply(days, s, steps[0]), steps[1..]);
    }
  }

  // ── Closed to the end ─────────────────────────────────────────────

  predicate PutsInReview(op: Op) { op.SetStatus? && op.next.InReview? }

  // A closed report is reopened by being put in review, and by nothing else.
  lemma ReopensIff(r: Row, op: Op)
    requires Valid(r) && r.status.Closed?
    ensures Do(r, op).status.Closed? <==> !PutsInReview(op)
    ensures !PutsInReview(op) ==> Do(r, op).closed == r.closed
  {
  }

  // None of the commits since the job's SELECT wrote an open status.
  ghost predicate LeftClosed(g: Gone) {
    forall j | g.seen <= j < |g.history.changes| ::
      !WritesOpen(Loaded(g.history.today, g.history.changes, j), g.history.changes[j].op)
  }

  // Closed without interruption from commit k to the deletion.
  ghost predicate ClosedToTheEnd(g: Gone, k: nat) { ClosedFrom(g.history.today, g.history.changes, k) }

  // What the job had seen of the report's history.
  function Seen(g: Gone): seq<Change>
    requires g.seen <= |g.history.changes|
  {
    g.history.changes[..g.seen]
  }

  lemma ClosedInTwoParts(g: Gone, k: nat)
    requires k < g.seen <= |g.history.changes|
    requires RowAfter(g.history.today, g.history.changes[..k + 1]).status.Closed?
    ensures ClosedToTheEnd(g, k) <==> ClosedFrom(g.history.today, Seen(g), k) && LeftClosed(g)
  {
    hide RowAfter, WritesOpen, Loaded;
    var today, cs, seen := g.history.today, g.history.changes, Seen(g);
    assert seen[..k + 1] == cs[..k + 1];
    ClosedFromIff(today, cs, k);
    ClosedFromIff(today, seen, k);
    forall j | k < j < g.seen ensures Loaded(today, seen, j) == Loaded(today, cs, j) && seen[j] == cs[j] {
      LoadedBefore(today, cs, g.seen, j);
    }
  }

  // In every run, whatever jobs and overlapping requests there are: the stamp by
  // which a deleted report was past its period is that of a commit that closed
  // it, and it was closed without interruption from then to its deletion exactly
  // if no request that had loaded the row before that commit wrote an open status
  // up to the SELECT, and none at all did between the SELECT and the DELETE.
  lemma DeletedWhileClosedIff(days: nat, steps: seq<Step>, id: nat) returns (k: nat)
    requires Run(days, NOTHING, steps) && id in End(days, NOTHING, steps).gone
    ensures var g := End(days, NOTHING, steps).gone[id];
            && k < g.seen <= |g.history.changes|
            && var r := RowAfter(g.history.today, Seen(g));
            && r.status.Closed? && r.closed.Some? && NotAfter(Retention.KeepUntil(r.closed.value, days), g.now)
            && StampedBy(g.history.today, Seen(g), k, r.closed.value)
            && (ClosedToTheEnd(g, k) <==> NoneStaleOpens(g.history.today, Seen(g), k) && LeftClosed(g))
  {
    RunStaysJustified(days, NOTHING, steps);
    k := ClosureOf(days, End(days, NOTHING, steps).gone[id]);
  }

  lemma ClosureOf(days: nat, g: Gone) returns (k: nat)
    requires WasPicked(days, g.history, g.now, g.seen)
    ensures k < g.seen <= |g.history.changes|
    ensures var r := RowAfter(g.history.today, Seen(g));
            && r.status.Closed? && r.closed.Some? && NotAfter(Retention.KeepUntil(r.closed.value, days), g.now)
            && StampedBy(g.history.today, Seen(g), k, r.closed.value)
            && (ClosedToTheEnd(g, k) <==> NoneStaleOpens(g.history.today, Seen(g), k) && LeftClosed(g))
  {
    hide RowAfter, StaleOpens, LeftClosed, ClosedFrom, NoneStaleOpens, Retention.KeepUntil, NotAfter, Retention.Eligible;
    var at := RowAfter(g.history.today, Seen(g)).closed.value;
    Retention.NeverDeletedEarly(at, g.now, days);
    k := ClosedSinceItsStampIff(g.history.today, Seen(g), at);
    assert Seen(g)[..k + 1] == g.history.changes[..k + 1];
    ClosedInTwoParts(g, k);
  }

  // One that found a valid closed report opens it exactly by putting it in review.
  lemma OpensByReview(r: Row, op: Op)
    requires Valid(r) && r.status.Closed?
    ensures WritesOpen(r, op) <==> PutsInReview(op)
  {
    ReopensIff(r, op);
  }

  ghost predicate NoneOpensIn(today: Moment, cs: seq<Change>, lo: nat, hi: nat)
    requires hi <= |cs|
  {
    forall j | lo <= j < hi :: !WritesOpen(Loaded(today, cs, j), cs[j].op)
  }

  predicate NoneReviewsIn(cs: seq<Change>, lo: nat, hi: nat)
    requires hi <= |cs|
  {
    forall j | lo <= j < hi :: !PutsInReview(cs[j].op)
  }

  lemma {:induction false} ReviewsAreTheOpenings(today: Moment, cs: seq<Change>, seen: nat, n: nat)
    requires InTurn(cs) && seen <= n <= |cs| && RowAfter(today, cs[..seen]).status.Closed?
    ensures NoneOpensIn(today, cs, seen, n) <==> NoneReviewsIn(cs, seen, n)
    ensures NoneOpensIn(today, cs, seen, n) ==> RowAfter(today, cs[..n]).status.Closed?
    decreases n
  {
    hide RowAfter, WritesOpen, Loaded, Valid, Merged, Do;
    if seen < n {
      var j := n - 1;
      ReviewsAreTheOpenings(today, cs, seen, j);
      if NoneOpensIn(today, cs, seen, j) {
        InTurnIsValid(today, cs, j);
        OpensByReview(RowAfter(today, cs[..j]), cs[j].op);
        OneChangeMore(today, cs, j);
        OpensIff(RowAfter(today, cs[..j]), cs[j].op, RowAfter(today, cs[..j]));
      }
    }
  }

  lemma InTurnIsValid(today: Moment, cs: seq<Change>, j: nat)
    requires InTurn(cs) && j < |cs|
    ensures Loaded(today, cs, j) == RowAfter(today, cs[..j]) && Valid(RowAfter(today, cs[..j]))
  {
    InTurnIsOneAtATime(today, cs[..j]);
    AlwaysValid(today, Ops(cs[..j]));
  }

  // With requests that take effect one at a time: exactly if none of them put
  // the report in review between the two.
  lemma DeletedInTurnIff(days: nat, steps: seq<Step>, id: nat) returns (k: nat)
    requires Run(days, NOTHING, steps) && id in End(days, NOTHING, steps).gone
    requires InTurn(End(days, NOTHING, steps).gone[id].history.changes)
    ensures var g := End(days, NOTHING, steps).gone[id];
            && k < g.seen <= |g.history.changes|
            && var r := RowAfter(g.history.today, Seen(g));
            && r.closed.Some? && StampedBy(g.history.today, Seen(g), k, r.closed.value)
            && (ClosedToTheEnd(g, k) <==> NoneReviewsIn(g.history.changes, g.seen, |g.history.changes|))
  {
    k := DeletedWhileClosedIff(days, steps, id);
    var g := End(days, NOTHING, steps).gone[id];
    InTurnIsNeverStale(g.history.today, Seen(g), k);
    hide Run, End, RowAfter, StaleOpens, StampedBy, WritesOpen, Loaded, ClosedToTheEnd;
    ReviewsAreTheOpenings(g.history.today, g.history.changes, g.seen, |g.history.changes|);
    assert LeftClosed(g) <==> NoneOpensIn(g.history.today, g.history.changes, g.seen, |g.history.changes|);
  }

  // ── Two runs ──────────────────────────────────────────────────────

  ghost predicate Reached(days: nat, s: World) {
    exists steps :: Run(days, NOTHING, steps) && End(days, NOTHING, steps) == s
  }

  lemma Start(days: nat)
    ensures Reached(days, NOTHING)
  {
    assert Run(days, NOTHING, []) && End(days, NOTHING, []) == NOTHING;
  }

  lemma {:induction false} RunThen(days: nat, s: World, steps: seq<Step>, a: Step)
    requires Run(days, s, steps) && Enabled(End(days, s, steps), a)
    ensures Run(days, s, steps + [a]) && End(days, s, steps + [a]) == Apply(days, End(days, s, steps), a)
    decreases |steps|
  {
    hide Apply, Enabled;
    if steps == [] {
      assert steps + [a] == [a] && [a][1..] == [];
    } else {
      RunThen(days, Apply(days, s, steps[0]), steps[1..], a);
      assert (steps + [a])[1..] == steps[1..] + [a];
    }
  }

  lemma Then(days: nat, s: World, a: Step)
    requires Reached(days, s) && Enabled(s, a)
    ensures Reached(days, Apply(days, s, a))
  {
    hide Apply, Enabled, Run, End;
    var steps :| Run(days, NOTHING, steps) && End(days, NOTHING, steps) == s;
    RunThen(days, NOTHING, steps, a);
  }

  // A report 0 with these commits on it, and no job yet.
  function With(today: Moment, cs: seq<Change>): World { World(map[0 := History(today, cs)], map[], map[]) }

  lemma Files(days: nat, today: Moment)
    ensures Reached(days, With(today, []))
  {
    Start(days);
    hide Reached;
    Then(days, NOTHING, File(0, today));
    assert Apply(days, NOTHING, File(0, today)) == With(today, []);
  }

  lemma Serves(days: nat, s: World, change: Change)
    requires Reached(days, s) && s.reports.Keys == {0}
    ensures var h := s.reports[0]; Reached(days, s.(reports := map[0 := h.(changes := h.changes + [change])]))
  {
    hide Reached;
    var h := s.reports[0];
    Then(days, s, Serve(0, change));
    assert Apply(days, s, Serve(0, change)).reports == map[0 := h.(changes := h.changes + [change])];
  }

  function AfterSelect(h: History, now: Moment): World {
    World(map[0 := h], map[0 := Job(now, map[0 := |h.changes|])], map[])
  }

  lemma Selects(days: nat, today: Moment, cs: seq<Change>, now: Moment)
    requires Reached(days, With(today, cs)) && Picked(RowAfter(today, cs), now, days)
    ensures Reached(days, AfterSelect(History(today, cs), now))
  {
    hide Reached, RowAfter, Picked;
    var s := With(today, cs);
    Then(days, s, Select(0, now));
    var seen := Apply(days, s, Select(0, now)).jobs[0].seen;
    assert 0 in seen && seen == map[0 := |cs|];
    assert Apply(days, s, Select(0, now)).jobs == map[0 := Job(now, map[0 := |cs|])];
  }

  lemma Deletes(days: nat, s: World)
    requires Reached(days, s) && s.reports.Keys == {0} && 0 in s.jobs && 0 in s.jobs[0].seen
    ensures Reached(days, s.(reports := map[], gone := s.gone[0 := Gone(s.reports[0], s.jobs[0].now, s.jobs[0].seen[0])]))
  {
    hide Reached;
    Then(days, s, Delete(0, 0));
    assert s.reports - {0} == map[];
  }

  // A report is reopened after the SELECT, and deleted all the same.
  lemma DeletedThoughReopened(days: nat, today: Moment, at: Moment, now: Moment, later: Moment) returns (s: World)
    requires Retention.Eligible(at, now, days)
    ensures Reached(days, s) && 0 in s.gone && Now(s.gone[0].history).status == InReview
  {
    var close, reopen := Change(SetStatus(Closed, at), 0), Change(SetStatus(InReview, later), 1);
    ClosedThenReopened(today, at, later);
    hide Retention.Eligible, RowAfter, Reached;
    Files(days, today);
    Serves(days, With(today, []), close);
    assert [] + [close] == [close];
    Selects(days, today, [close], now);
    var selected := AfterSelect(History(today, [close]), now);
    Serves(days, selected, reopen);
    assert [close] + [reopen] == [close, reopen];
    var served := selected.(reports := map[0 := History(today, [close, reopen])]);
    Deletes(days, served);
    s := served.(reports := map[], gone := map[0 := Gone(History(today, [close, reopen]), now, 1)]);
  }

  lemma ClosedThenReopened(today: Moment, at: Moment, later: Moment)
    ensures var close, reopen := Change(SetStatus(Closed, at), 0), Change(SetStatus(InReview, later), 1);
            && RowAfter(today, [close]).status.Closed? && RowAfter(today, [close]).closed == Some(at)
            && RowAfter(today, [close, reopen]).status == InReview
  {
    var close, reopen := Change(SetStatus(Closed, at), 0), Change(SetStatus(InReview, later), 1);
    assert [close][..0] == [] && [close, reopen][..1] == [close];
    assert RowAfter(today, [close]) == Merged(Created(today), close.op, Created(today));
    assert RowAfter(today, [close, reopen]) == Merged(RowAfter(today, [close]), reopen.op, RowAfter(today, [close]));
    hide Deadlines.FeedbackDue;
  }

  // A report is closed while an acknowledgement that had loaded it before takes
  // it into review; closed again later, it is deleted by the first closure's time.
  lemma DeletedTooEarly(days: nat, today: Moment, at: Moment, ack: Moment, again: Moment, now: Moment) returns (s: World)
    requires Retention.Eligible(at, now, days)
    ensures Reached(days, s) && 0 in s.gone
    ensures var g := s.gone[0];
            && g.now == now && g.seen == |g.history.changes| == 3 && g.history.changes[2].op == SetStatus(Closed, again)
            && RowAfter(today, g.history.changes[..2]).status == InReview && RowAfter(today, g.history.changes).closed == Some(at)
  {
    var cs := [Change(SetStatus(Closed, at), 0), Change(Acknowledge(ack), 0), Change(SetStatus(Closed, again), 2)];
    ClosedTwice(today, at, ack, again);
    hide Retention.Eligible, RowAfter, Reached;
    ServesThree(days, today, cs);
    Selects(days, today, cs, now);
    Deletes(days, AfterSelect(History(today, cs), now));
    s := AfterSelect(History(today, cs), now).(reports := map[], gone := map[0 := Gone(History(today, cs), now, 3)]);
  }

  lemma ServesThree(days: nat, today: Moment, cs: seq<Change>)
    requires |cs| == 3
    ensures Reached(days, With(today, cs))
  {
    hide Reached;
    Files(days, today);
    Serves(days, With(today, []), cs[0]);
    Serves(days, With(today, [] + [cs[0]]), cs[1]);
    Serves(days, With(today, [] + [cs[0]] + [cs[1]]), cs[2]);
    assert [] + [cs[0]] + [cs[1]] + [cs[2]] == cs;
  }

  lemma ClosedTwice(today: Moment, at: Moment, ack: Moment, again: Moment)
    ensures var cs := [Change(SetStatus(Closed, at), 0), Change(Acknowledge(ack), 0), Change(SetStatus(Closed, again), 2)];
            && RowAfter(today, cs[..2]).status == InReview
            && RowAfter(today, cs).status.Closed? && RowAfter(today, cs).closed == Some(at)
  {
    var cs := [Change(SetStatus(Closed, at), 0), Change(Acknowledge(ack), 0), Change(SetStatus(Closed, again), 2)];
    OneChangeMore(today, cs, 0);
    OneChangeMore(today, cs, 1);
    OneChangeMore(today, cs, 2);
    assert cs[..0] == [] && cs[..3] == cs;
    assert Loaded(today, cs, 0) == Loaded(today, cs, 1) == Created(today) && Loaded(today, cs, 2) == RowAfter(today, cs[..2]);
    hide Deadlines.FeedbackDue;
  }
}
