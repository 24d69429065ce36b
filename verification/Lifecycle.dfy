/**
 * A report from its receipt to its deletion (app/services/report.py,
 * app/models/report.py, app/services/retention.py): first with one request at a
 * time, then with requests that load the row before another one commits.
 */
module Lifecycle {
  import opened Options
  import opened Calendar
  import Deadlines
  import Retention

  datatype Status = Received | InReview | PendingFeedback | Closed

  // STATUS_TRANSITIONS
  predicate MayFollow(current: Status, next: Status) {
    match current
    case Received => next.InReview? || next.Closed?
    case InReview => next.PendingFeedback? || next.Closed? || next.Received?
    case PendingFeedback => next.Closed? || next.InReview?
    case Closed => next.InReview?
  }

  datatype Row = Row(
    status: Status,
    submitted: Moment,
    acknowledged: Option<Moment>,
    feedbackDue: Moment,
    feedbackSent: Option<Moment>,
    closed: Option<Moment>)

  // The table in a sentence: a status is left for another one, a closed report
  // reopens only into review, and feedback and receipt are entered only from it.
  lemma TransitionsIff(a: Status, b: Status)
    ensures MayFollow(a, b) <==>
              a != b && (a.Closed? ==> b.InReview?) && (b.PendingFeedback? || b.Received? ==> a.InReview?)
  {
  }

  // What an office's request does; a message's time is the thread's next one.
  datatype Op =
    | Acknowledge(now: Moment)
    | SetStatus(next: Status, now: Moment)
    | AdminMessage(sentAt: Moment)

  function Created(today: Moment): Row {
    Row(Received, today, None, Deadlines.FeedbackDue(today, None), None, None)
  }

  function Do(r: Row, op: Op): Row {
    match op
    case Acknowledge(now) =>
      var stamped :=
        if r.acknowledged.Some? then r
        else r.(acknowledged := Some(now), feedbackDue := Deadlines.FeedbackDue(r.submitted, Some(now)));
      if r.status.Received? then stamped.(status := InReview) else stamped
    case SetStatus(next, now) =>
      if !MayFollow(r.status, next) then r
      else if next.Closed? then r.(status := next, closed := if r.closed.Some? then r.closed else Some(now))
      else r.(status := next, closed := None)
    case AdminMessage(sentAt) =>
      if r.acknowledged.Some? && r.feedbackSent.None? then r.(feedbackSent := Some(sentAt)) else r
  }

  /** A report as its row is changed in place. */
  class Report {
    var status: Status
    const submitted: Moment
    var acknowledged: Option<Moment>
    var feedbackDue: Moment
    var feedbackSent: Option<Moment>
    var closed: Option<Moment>

    function View(): Row
      reads this
    {
      Row(status, submitted, acknowledged, feedbackDue, feedbackSent, closed)
    }

    constructor (today: Moment)
      ensures View() == Created(today) && Valid(View())
    {
      status, submitted, acknowledged := Received, today, None;
      feedbackDue := Deadlines.FeedbackDue(today, None);
      feedbackSent, closed := None, None;
    }

    // acknowledge_report: twice is once.
    method Acknowledge(now: Moment)
      modifies this
      ensures View() == Do(old(View()), Op.Acknowledge(now))
      ensures old(acknowledged).Some? ==> acknowledged == old(acknowledged) && feedbackDue == old(feedbackDue)
      ensures old(Valid(View())) ==> Valid(View())
    {
      if acknowledged == None {
        acknowledged := Some(now);
        feedbackDue := Deadlines.FeedbackDue(submitted, acknowledged);
      }
      if status == Received {
        status := InReview;
      }
    }

    // The status route, with update_report_status: true unless refused.
    method UpdateStatus(next: Status, now: Moment) returns (allowed: bool)
      modifies this
      ensures allowed <==> MayFollow(old(status), next)
      ensures View() == Do(old(View()), SetStatus(next, now))
      ensures old(Valid(View())) ==> Valid(View())
      ensures old(Valid(View())) && allowed && next.Closed? ==> closed == Some(now)
    {
      if !MayFollow(status, next) {
        return false;
      }
      status := next;
      if next == Closed {
        if closed == None {
          closed := Some(now);
        }
      } else if closed != None {
        closed := None;
      }
      allowed := true;
    }

    // add_admin_message, as far as the report goes.
    method AddAdminMessage(sentAt: Moment)
      modifies this`feedbackSent
      ensures View() == Do(old(View()), AdminMessage(sentAt))
      ensures old(Valid(View())) ==> Valid(View())
    {
      if acknowledged != None && feedbackSent == None {
        feedbackSent := Some(sentAt);
      }
    }
  }

  // ── One request at a time ─────────────────────────────────────────

  predicate Valid(r: Row) {
    && (r.closed.Some? <==> r.status.Closed?)
    && (r.feedbackSent.Some? ==> r.acknowledged.Some?)
    && r.feedbackDue == Deadlines.FeedbackDue(r.submitted, r.acknowledged)
  }

  function After(today: Moment, ops: seq<Op>): Row {
    if ops == [] then Created(today) else Do(After(today, ops[..|ops| - 1]), ops[|ops| - 1])
  }

  lemma StaysValid(r: Row, op: Op)
    requires Valid(r)
    ensures Valid(Do(r, op))
  {
    hide Deadlines.FeedbackDue;
  }

  // In every run: closed_at is set exactly while the report is closed, feedback
  // comes after the acknowledgement, and the deadline is the one the statute
  // gives for what has been acknowledged.
  lemma {:induction false} AlwaysValid(today: Moment, ops: seq<Op>)
    ensures Valid(After(today, ops)) && After(today, ops).submitted == today
    ensures var r := After(today, ops);
            && (r.closed.Some? <==> r.status == Closed)
            && (r.feedbackSent.Some? ==> r.acknowledged.Some?)
            && r.feedbackDue == Deadlines.FeedbackDue(today, r.acknowledged)
    decreases |ops|
  {
    hide Deadlines.FeedbackDue;
    if ops != [] {
      AlwaysValid(today, ops[..|ops| - 1]);
      StaysValid(After(today, ops[..|ops| - 1]), ops[|ops| - 1]);
    }
  }

  lemma StampsStay(r: Row, op: Op)
    ensures r.acknowledged.Some? ==>
              Do(r, op).acknowledged == r.acknowledged && Do(r, op).feedbackDue == r.feedbackDue
    ensures r.feedbackSent.Some? ==> Do(r, op).feedbackSent == r.feedbackSent
  {
    hide Deadlines.FeedbackDue;
  }

  // The acknowledgement and the feedback are each stamped once.
  lemma {:induction false} StampedOnce(today: Moment, ops: seq<Op>, k: nat)
    requires k <= |ops|
    ensures var r, t := After(today, ops[..k]), After(today, ops);
            && (r.acknowledged.Some? ==> t.acknowledged == r.acknowledged && t.feedbackDue == r.feedbackDue)
            && (r.feedbackSent.Some? ==> t.feedbackSent == r.feedbackSent)
    decreases |ops|
  {
    hide Do;
    if k == |ops| {
      assert ops[..k] == ops;
    } else {
      var most := ops[..|ops| - 1];
      StampedOnce(today, most, k);
      assert most[..k] == ops[..k];
      StampsStay(After(today, most), ops[|ops| - 1]);
    }
  }

  // The report has been closed since step k, which closed it at `at`.
  ghost predicate ClosedSince(today: Moment, ops: seq<Op>, k: nat, at: Moment)
    requires k < |ops|
  {
    && ops[k] == SetStatus(Closed, at) && !After(today, ops[..k]).status.Closed?
    && forall j | k < j <= |ops| :: After(today, ops[..j]).status.Closed? && After(today, ops[..j]).closed == Some(at)
  }

  lemma ClosedOneStepMore(today: Moment, ops: seq<Op>, op: Op, k: nat, at: Moment)
    requires k < |ops| && ClosedSince(today, ops, k, at)
    requires After(today, ops + [op]).status.Closed? && After(today, ops + [op]).closed == Some(at)
    ensures ClosedSince(today, ops + [op], k, at)
  {
    var all := ops + [op];
    hide After;
    assert all[..k] == ops[..k] && all[..|all|] == all;
    forall j | k < j <= |all| ensures After(today, all[..j]).status.Closed? && After(today, all[..j]).closed == Some(at) {
      if j <= |ops| {
        assert all[..j] == ops[..j];
      }
    }
  }

  lemma JustClosed(today: Moment, ops: seq<Op>, op: Op, at: Moment)
    requires !After(today, ops).status.Closed? && op == SetStatus(Closed, at)
    requires After(today, ops + [op]).status.Closed? && After(today, ops + [op]).closed == Some(at)
    ensures ClosedSince(today, ops + [op], |ops|, at)
  {
    var all := ops + [op];
    hide After;
    assert all[..|ops|] == ops && all[..|all|] == all;
  }

  // A step into the closed state stamps its own time; one within it stamps none.
  lemma ClosingStamps(r: Row, op: Op)
    requires Valid(r) && Do(r, op).closed.Some?
    ensures if r.status.Closed? then r.closed == Do(r, op).closed else op == SetStatus(Closed, Do(r, op).closed.value)
  {
    hide Deadlines.FeedbackDue;
  }

  // closed_at is when the closure that still lasts began.
  lemma {:induction false} ClosedWithoutInterruption(today: Moment, ops: seq<Op>) returns (k: nat)
    requires After(today, ops).closed.Some?
    ensures k < |ops| && ClosedSince(today, ops, k, After(today, ops).closed.value)
    decreases |ops|
  {
    var most, op := ops[..|ops| - 1], ops[|ops| - 1];
    var at := After(today, ops).closed.value;
    assert ops == most + [op];
    AlwaysValid(today, most);
    AlwaysValid(today, ops);
    ClosingStamps(After(today, most), op);
    hide Do, ClosedSince, Deadlines.FeedbackDue;
    if After(today, most).status.Closed? {
      k := ClosedWithoutInterruption(today, most);
      ClosedOneStepMore(today, most, op, k, at);
    } else {
      k := |most|;
      JustClosed(today, most, op, at);
    }
  }

  // Retention picks only reports that have been closed, without interruption,
  // for the whole of their retention period.
  lemma PickedOnlyAfterItsPeriod(today: Moment, ops: seq<Op>, now: Moment, days: nat) returns (k: nat)
    requires Picked(After(today, ops), now, days)
    ensures k < |ops|
    ensures var at := After(today, ops).closed.value;
            && ClosedSince(today, ops, k, at)
            && NotAfter(Retention.KeepUntil(at, days), now)
  {
    k := ClosedWithoutInterruption(today, ops);
    Retention.NeverDeletedEarly(After(today, ops).closed.value, now, days);
  }

  // run_retention_cleanup's WHERE.
  predicate Picked(r: Row, now: Moment, days: nat) {
    r.status.Closed? && r.closed.Some? && Retention.Eligible(r.closed.value, now, days)
  }

  // ── Requests that overlap ─────────────────────────────────────────

  // A request's UPDATE names the columns it has changed since it loaded them.
  function Merged(loaded: Row, op: Op, current: Row): Row {
    var mine := Do(loaded, op);
    Row(if mine.status != loaded.status then mine.status else current.status,
        current.submitted,
        if mine.acknowledged != loaded.acknowledged then mine.acknowledged else current.acknowledged,
        if mine.feedbackDue != loaded.feedbackDue then mine.feedbackDue else current.feedbackDue,
        if mine.feedbackSent != loaded.feedbackSent then mine.feedbackSent else current.feedbackSent,
        if mine.closed != loaded.closed then mine.closed else current.closed)
  }

  // It takes a report out of received, review or feedback into another of them.
  predicate MovesWhileOpen(loaded: Row, op: Op) {
    !loaded.status.Closed? && !Do(loaded, op).status.Closed? && Do(loaded, op).status != loaded.status
  }

  // It acknowledges too, and its acknowledgement does not move the deadline.
  predicate AcknowledgesLate(loaded: Row, op: Op) {
    && op.Acknowledge? && loaded.acknowledged.None?
    && Deadlines.FeedbackDue(loaded.submitted, Some(op.now)) == Deadlines.FeedbackDue(loaded.submitted, None)
  }

  // What a request's commit meets: the row it loaded, or one that requests
  // since have changed.
  predicate Since(loaded: Row, current: Row) {
    && Valid(loaded) && Valid(current) && current.submitted == loaded.submitted
    && (loaded.acknowledged.Some? ==> current.acknowledged == loaded.acknowledged)
    && (loaded.feedbackSent.Some? ==> current.feedbackSent == loaded.feedbackSent)
  }

  // An overlapping commit leaves the row valid unless it moves a report that
  // was closed meanwhile, or acknowledges late one acknowledged in time.
  lemma MergedIsValidIff(loaded: Row, op: Op, current: Row)
    requires Since(loaded, current)
    ensures Valid(Merged(loaded, op, current)) <==>
            && !(MovesWhileOpen(loaded, op) && current.status.Closed?)
            && !(AcknowledgesLate(loaded, op) && current.feedbackDue != loaded.feedbackDue)
  {
    hide Deadlines.FeedbackDue;
  }

  // Its acknowledgement replaces an earlier one exactly when both were made on
  // a row that had none.
  lemma AcknowledgedTwiceIff(loaded: Row, op: Op, current: Row)
    requires Since(loaded, current) && current.acknowledged.Some?
    ensures Merged(loaded, op, current).acknowledged == current.acknowledged <==>
            !(op.Acknowledge? && loaded.acknowledged.None? && current.acknowledged != Some(op.now))
  {
    hide Deadlines.FeedbackDue;
  }

  // Its message replaces an earlier feedback exactly when both were written to
  // an acknowledged row that had none.
  lemma FeedbackTwiceIff(loaded: Row, op: Op, current: Row)
    requires Since(loaded, current) && current.feedbackSent.Some?
    ensures Merged(loaded, op, current).feedbackSent == current.feedbackSent <==>
            !(op.AdminMessage? && loaded.acknowledged.Some? && loaded.feedbackSent.None?
              && current.feedbackSent != Some(op.sentAt))
  {
    hide Deadlines.FeedbackDue;
  }

  // On the row it loaded, a commit is the request itself.
  lemma MergedAlone(loaded: Row, op: Op)
    ensures Merged(loaded, op, loaded) == Do(loaded, op)
  {
    hide Deadlines.FeedbackDue;
  }

  datatype Request = Request(op: Op, loaded: Row)

  datatype State = State(row: Row, requests: map<nat, Request>)

  datatype Step = Begin(p: nat, op: Op) | Commit(p: nat)

  predicate Enabled(s: State, a: Step) {
    match a
    case Begin(p, _) => p !in s.requests
    case Commit(p) => p in s.requests
  }

  function Apply(s: State, a: Step): State
    requires Enabled(s, a)
  {
    match a
    case Begin(p, op) => s.(requests := s.requests[p := Request(op, s.row)])
    case Commit(p) => State(Merged(s.requests[p].loaded, s.requests[p].op, s.row), s.requests - {p})
  }

  // What a step is to leave: a valid row, with the stamps it had.
  predicate Keeps(before: Row, after: Row) {
    && Valid(after) && after.submitted == before.submitted
    && (before.acknowledged.Some? ==> after.acknowledged == before.acknowledged)
    && (before.feedbackSent.Some? ==> after.feedbackSent == before.feedbackSent)
  }

  // Of requests that overlap, no commit does what the three conditions above
  // rule out; all of it can be told from the row before the commit.
  predicate Harmless(s: State, a: Step)
    requires Enabled(s, a)
  {
    a.Commit? ==>
      var loaded, op := s.requests[a.p].loaded, s.requests[a.p].op;
      && !(MovesWhileOpen(loaded, op) && s.row.status.Closed?)
      && !(AcknowledgesLate(loaded, op) && s.row.feedbackDue != loaded.feedbackDue)
      && !(op.Acknowledge? && loaded.acknowledged.None? && s.row.acknowledged.Some? && s.row.acknowledged != Some(op.now))
      && !(op.AdminMessage? && loaded.acknowledged.Some? && loaded.feedbackSent.None?
           && s.row.feedbackSent.Some? && s.row.feedbackSent != Some(op.sentAt))
  }

  predicate Run(s: State, steps: seq<Step>)
    decreases |steps|
  {
    steps == [] || (Enabled(s, steps[0]) && Run(Apply(s, steps[0]), steps[1..]))
  }

  function End(s: State, steps: seq<Step>): State
    requires Run(s, steps)
    decreases |steps|
  {
    if steps == [] then s else End(Apply(s, steps[0]), steps[1..])
  }

  predicate AllHarmless(s: State, steps: seq<Step>)
    requires Run(s, steps)
    decreases |steps|
  {
    steps == [] || (Harmless(s, steps[0]) && AllHarmless(Apply(s, steps[0]), steps[1..]))
  }

  predicate AllKept(s: State, steps: seq<Step>)
    requires Run(s, steps)
    decreases |steps|
  {
    steps == [] || (Keeps(s.row, Apply(s, steps[0]).row) && AllKept(Apply(s, steps[0]), steps[1..]))
  }

  predicate Coherent(s: State) {
    Valid(s.row) && forall p | p in s.requests :: Since(s.requests[p].loaded, s.row)
  }

  // A step keeps the row exactly if it is harmless.
  lemma StepKeepsIff(s: State, a: Step)
    requires Coherent(s) && Enabled(s, a)
    ensures Keeps(s.row, Apply(s, a).row) <==> Harmless(s, a)
  {
    if a.Commit? {
      var loaded, op := s.requests[a.p].loaded, s.requests[a.p].op;
      MergedIsValidIff(loaded, op, s.row);
      if s.row.acknowledged.Some? {
        AcknowledgedTwiceIff(loaded, op, s.row);
      }
      if s.row.feedbackSent.Some? {
        FeedbackTwiceIff(loaded, op, s.row);
      }
      assert Merged(loaded, op, s.row).submitted == s.row.submitted;
      hide Valid, Merged, MovesWhileOpen, AcknowledgesLate;
    }
  }

  lemma StaysCoherent(s: State, a: Step)
    requires Coherent(s) && Enabled(s, a) && Keeps(s.row, Apply(s, a).row)
    ensures Coherent(Apply(s, a))
  {
    hide Valid, Merged;
  }

  // In every run of overlapping requests: each step keeps validity and stamps
  // exactly if each commit is harmless.
  lemma {:induction false} RunsAreKeptIff(s: State, steps: seq<Step>)
    requires Coherent(s) && Run(s, steps)
    ensures AllKept(s, steps) <==> AllHarmless(s, steps)
    ensures AllHarmless(s, steps) ==> Coherent(End(s, steps)) && Keeps(s.row, End(s, steps).row)
    decreases |steps|
  {
    hide Valid;
    if steps != [] {
      StepKeepsIff(s, steps[0]);
      hide Apply, Harmless;
      if Keeps(s.row, Apply(s, steps[0]).row) {
        StaysCoherent(s, steps[0]);
        RunsAreKeptIff(Apply(s, steps[0]), steps[1..]);
      }
    }
  }

  // Two that are not. Both messages find an acknowledged report without
  // feedback: the second takes the place of the first.
  lemma TwoFirstMessages(today: Moment, at: Moment, first: Moment, second: Moment)
    ensures var s := State(Do(Created(today), Acknowledge(at)), map[]);
            var steps := [Begin(1, AdminMessage(first)), Begin(2, AdminMessage(second)), Commit(1), Commit(2)];
            && Run(s, steps[..3]) && End(s, steps[..3]).row.feedbackSent == Some(first)
            && Run(s, steps) && End(s, steps).row.feedbackSent == Some(second)
  {
    hide Deadlines.FeedbackDue;
    var r := Do(Created(today), Acknowledge(at));
    var one, two := AdminMessage(first), AdminMessage(second);
    var s := State(r, map[]);
    var a1, a2, a3, a4: Step := Begin(1, one), Begin(2, two), Commit(1), Commit(2);
    var s1 := Apply(s, a1);
    var s2 := Apply(s1, a2);
    var s3 := Apply(s2, a3);
    var s4 := Apply(s3, a4);
    assert s3.row == Merged(r, one, r) && s4.row == Merged(r, two, s3.row);
    assert s3.row.feedbackSent == Some(first) && s4.row.feedbackSent == Some(second);
    hide Apply;
    FourSteps(s, s1, s2, s3, s4, a1, a2, a3, a4);
    assert [a1, a2, a3, a4][..3] == [a1, a2, a3];
  }

  lemma FourSteps(s: State, s1: State, s2: State, s3: State, s4: State, a1: Step, a2: Step, a3: Step, a4: Step)
    requires Enabled(s, a1) && Apply(s, a1) == s1 && Enabled(s1, a2) && Apply(s1, a2) == s2
    requires Enabled(s2, a3) && Apply(s2, a3) == s3 && Enabled(s3, a4) && Apply(s3, a4) == s4
    ensures Run(s, [a1, a2, a3]) && End(s, [a1, a2, a3]) == s3
    ensures Run(s, [a1, a2, a3, a4]) && End(s, [a1, a2, a3, a4]) == s4
  {
    hide Apply, Enabled;
    assert [a4][1..] == [] && [a3, a4][1..] == [a4] && [a2, a3, a4][1..] == [a3, a4];
    assert [a1, a2, a3, a4][1..] == [a2, a3, a4];
    assert [a3][1..] == [] && [a2, a3][1..] == [a3] && [a1, a2, a3][1..] == [a2, a3];
    assert Run(s3, [a4]) && End(s3, [a4]) == s4;
    assert Run(s2, [a3, a4]) && End(s2, [a3, a4]) == s4;
    assert Run(s1, [a2, a3, a4]) && End(s1, [a2, a3, a4]) == s4;
    assert Run(s2, [a3]) && End(s2, [a3]) == s3;
    assert Run(s1, [a2, a3]) && End(s1, [a2, a3]) == s3;
  }

  // And the report is closed while another request takes it into review, which
  // leaves closed_at behind; closed again later, it keeps the time of the first
  // closure, from which retention then counts.
  lemma AnOldClosureSurvives(today: Moment, first: Moment, other: Moment, again: Moment)
    ensures var r := Created(today);
            var overlapped := Merged(r, SetStatus(InReview, other), Do(r, SetStatus(Closed, first)));
            && !Valid(overlapped) && overlapped.status == InReview
            && Do(overlapped, SetStatus(Closed, again)).closed == Some(first)
  {
    hide Deadlines.FeedbackDue;
  }
}
