/**
 * A report's row as the history of the requests that committed on it, each with
 * the row it had loaded (app/services/report.py): where closed_at comes from,
 * and when the closure it names has lasted.
 */
module Histories {
  import opened Options
  import opened Calendar
  import opened Lifecycle
  import Deadlines

  // A request's commit, and how many commits there were when it loaded the row.
  datatype Change = Change(op: Op, base: nat)

  function Base(c: Change, n: nat): nat { if c.base < n then c.base else n }

  function RowAfter(today: Moment, cs: seq<Change>): Row {
    if cs == [] then Created(today)
    else
      var n := |cs| - 1;
      Merged(RowAfter(today, cs[..Base(cs[n], n)]), cs[n].op, RowAfter(today, cs[..n]))
  }

  function Loaded(today: Moment, cs: seq<Change>, j: nat): Row
    requires j < |cs|
  {
    RowAfter(today, cs[..Base(cs[j], j)])
  }

  lemma OneChangeMore(today: Moment, cs: seq<Change>, j: nat)
    requires j < |cs|
    ensures RowAfter(today, cs[..j + 1]) == Merged(Loaded(today, cs, j), cs[j].op, RowAfter(today, cs[..j]))
  {
    hide Merged, Created;
    var more, b := cs[..j + 1], Base(cs[j], j);
    assert more[..j] == cs[..j] && more[..b] == cs[..b];
  }

  lemma LoadedBefore(today: Moment, cs: seq<Change>, n: nat, j: nat)
    requires j < n <= |cs|
    ensures Loaded(today, cs[..n], j) == Loaded(today, cs, j)
  {
    assert cs[..n][..Base(cs[j], j)] == cs[..Base(cs[j], j)];
  }

  // Requests that each load the row the last one left.
  predicate InTurn(cs: seq<Change>) { forall j | 0 <= j < |cs| :: cs[j].base >= j }

  function Ops(cs: seq<Change>): (ops: seq<Op>)
    ensures |ops| == |cs|
  {
    seq(|cs|, i requires 0 <= i < |cs| => cs[i].op)
  }

  // They take effect one at a time.
  lemma {:induction false} InTurnIsOneAtATime(today: Moment, cs: seq<Change>)
    requires InTurn(cs)
    ensures RowAfter(today, cs) == After(today, Ops(cs))
    decreases |cs|
  {
    if cs != [] {
      var n := |cs| - 1;
      assert Ops(cs)[..n] == Ops(cs[..n]);
      InTurnIsOneAtATime(today, cs[..n]);
      MergedAlone(After(today, Ops(cs[..n])), cs[n].op);
      hide Do, Merged;
    }
  }

  // Every run of overlapping requests is such a history.
  ghost predicate Records(s: State, today: Moment, cs: seq<Change>) {
    && s.row == RowAfter(today, cs)
    && forall p | p in s.requests :: exists b :: 0 <= b <= |cs| && s.requests[p].loaded == RowAfter(today, cs[..b])
  }

  lemma RecordsOneMore(s: State, a: Step, today: Moment, cs: seq<Change>) returns (more: seq<Change>)
    requires Records(s, today, cs) && Enabled(s, a)
    ensures Records(Apply(s, a), today, more) && |more| == |cs| + (if a.Commit? then 1 else 0)
  {
    hide RowAfter, Merged;
    if a.Begin? {
      more := cs;
      assert cs[..|cs|] == cs;
    } else {
      var b :| 0 <= b <= |cs| && s.requests[a.p].loaded == RowAfter(today, cs[..b]);
      more := cs + [Change(s.requests[a.p].op, b)];
      assert more[..|cs| + 1] == more && more[..|cs|] == cs && more[..b] == cs[..b];
      OneChangeMore(today, more, |cs|);
      var t := Apply(s, a);
      forall p | p in t.requests ensures exists b :: 0 <= b <= |more| && t.requests[p].loaded == RowAfter(today, more[..b]) {
        var b :| 0 <= b <= |cs| && s.requests[p].loaded == RowAfter(today, cs[..b]);
        assert more[..b] == cs[..b];
      }
    }
  }

  lemma {:induction false} RunIsRecorded(s: State, steps: seq<Step>, today: Moment, cs: seq<Change>)
    returns (all: seq<Change>)
    requires Records(s, today, cs) && Run(s, steps)
    ensures End(s, steps).row == RowAfter(today, all)
    decreases |steps|
  {
    all := cs;
    if steps != [] {
      var more := RecordsOneMore(s, steps[0], today, cs);
      all := RunIsRecorded(Apply(s, steps[0]), steps[1..], today, more);
    }
  }

  // Commit k closed the report at `at`, and its stamp has been there since.
  ghost predicate StampedBy(today: Moment, cs: seq<Change>, k: nat, at: Moment) {
    && k < |cs| && cs[k].op == SetStatus(Closed, at) && RowAfter(today, cs[..k + 1]).status.Closed?
    && forall j | k < j <= |cs| :: RowAfter(today, cs[..j]).closed == Some(at)
  }

  lemma MergedStamps(loaded: Row, op: Op, current: Row, at: Moment)
    requires Merged(loaded, op, current).closed == Some(at)
    ensures current.closed == Some(at) || (op == SetStatus(Closed, at) && Merged(loaded, op, current).status.Closed?)
  {
    hide Deadlines.FeedbackDue;
  }

  lemma ClosedByACommit(today: Moment, cs: seq<Change>)
    requires RowAfter(today, cs).closed.Some?
    ensures cs != []
  {
  }

  lemma StampedEarlier(today: Moment, cs: seq<Change>, n: nat, k: nat, at: Moment)
    requires n + 1 == |cs| && StampedBy(today, cs[..n], k, at) && RowAfter(today, cs).closed == Some(at)
    ensures StampedBy(today, cs, k, at)
  {
    hide RowAfter;
    assert cs[..n][..k + 1] == cs[..k + 1] && cs[..n + 1] == cs;
    forall j | k < j <= |cs| ensures RowAfter(today, cs[..j]).closed == Some(at) {
      if j <= n {
        assert cs[..n][..j] == cs[..j];
      }
    }
  }

  lemma StampedLast(today: Moment, cs: seq<Change>, n: nat, at: Moment)
    requires n + 1 == |cs| && cs[n].op == SetStatus(Closed, at)
    requires RowAfter(today, cs).status.Closed? && RowAfter(today, cs).closed == Some(at)
    ensures StampedBy(today, cs, n, at)
  {
    hide RowAfter;
    assert cs[..n + 1] == cs;
  }

  // closed_at always comes from a commit that closed the report.
  lemma {:induction false} StampComesFrom(today: Moment, cs: seq<Change>, at: Moment) returns (k: nat)
    requires RowAfter(today, cs).closed == Some(at)
    ensures StampedBy(today, cs, k, at)
    decreases |cs|
  {
    ClosedByACommit(today, cs);
    hide *;
    var n := |cs| - 1;
    assert cs[..n + 1] == cs;
    OneChangeMore(today, cs, n);
    if RowAfter(today, cs[..n]).closed == Some(at) {
      k := StampComesFrom(today, cs[..n], at);
      StampedEarlier(today, cs, n, k, at);
    } else {
      k := n;
      MergedStamps(Loaded(today, cs, n), cs[n].op, RowAfter(today, cs[..n]), at);
      StampedLast(today, cs, n, at);
    }
  }

  // The commit writes a status other than closed.
  predicate WritesOpen(loaded: Row, op: Op) {
    Do(loaded, op).status != loaded.status && !Do(loaded, op).status.Closed?
  }

  lemma OpensIff(loaded: Row, op: Op, current: Row)
    requires current.status.Closed?
    ensures Merged(loaded, op, current).status.Closed? <==> !WritesOpen(loaded, op)
  {
    hide Deadlines.FeedbackDue;
  }

  ghost predicate ClosedFrom(today: Moment, cs: seq<Change>, k: nat) {
    forall j | k < j <= |cs| :: RowAfter(today, cs[..j]).status.Closed?
  }

  ghost predicate NoneOpens(today: Moment, cs: seq<Change>, k: nat) {
    forall j | k < j < |cs| :: !WritesOpen(Loaded(today, cs, j), cs[j].op)
  }

  lemma {:induction false} ClosedFromIff(today: Moment, cs: seq<Change>, k: nat)
    requires k < |cs| && RowAfter(today, cs[..k + 1]).status.Closed?
    ensures ClosedFrom(today, cs, k) <==> NoneOpens(today, cs, k)
    decreases |cs|
  {
    var n := |cs| - 1;
    hide RowAfter, Merged, WritesOpen;
    if k == n {
      assert cs[..n + 1] == cs;
    } else {
      var most := cs[..n];
      assert most[..k + 1] == cs[..k + 1] && cs[..n + 1] == cs && most[..n] == most;
      ClosedFromIff(today, most, k);
      assert ClosedFrom(today, cs, k) <==> ClosedFrom(today, most, k) && RowAfter(today, cs).status.Closed? by {
        forall j | k < j <= n ensures most[..j] == cs[..j] {
        }
      }
      OneChangeMore(today, cs, n);
      OneMore(today, cs, k);
      if RowAfter(today, most).status.Closed? {
        OpensIff(Loaded(today, cs, n), cs[n].op, RowAfter(today, most));
      } else {
        assert !ClosedFrom(today, most, k);
      }
    }
  }

  lemma OneMore(today: Moment, cs: seq<Change>, k: nat)
    requires k < |cs| - 1
    ensures var n := |cs| - 1;
            NoneOpens(today, cs, k) <==> NoneOpens(today, cs[..n], k) && !WritesOpen(Loaded(today, cs, n), cs[n].op)
  {
    hide RowAfter, WritesOpen, Loaded;
    var n := |cs| - 1;
    forall j | k < j < n ensures Loaded(today, cs[..n], j) == Loaded(today, cs, j) && cs[..n][j] == cs[j] {
      LoadedBefore(today, cs, n, j);
    }
  }

  // A request that loaded the row before commit k writes an open status after it.
  ghost predicate StaleOpens(today: Moment, cs: seq<Change>, k: nat, j: nat)
    requires k < j < |cs|
  {
    Base(cs[j], j) <= k && WritesOpen(Loaded(today, cs, j), cs[j].op)
  }

  ghost predicate NoneStaleOpens(today: Moment, cs: seq<Change>, k: nat) {
    forall j | k < j < |cs| :: !StaleOpens(today, cs, k, j)
  }

  // Reopening the closed row itself takes its stamp away.
  lemma ReopeningClears(loaded: Row, op: Op, current: Row)
    requires loaded.status.Closed? && loaded.closed.Some? && WritesOpen(loaded, op)
    ensures Merged(loaded, op, current).closed.None?
  {
    hide Deadlines.FeedbackDue;
  }

  // While the stamp stays, the first to open the report after it is stale.
  lemma FirstOpenerIsStale(today: Moment, cs: seq<Change>, k: nat, at: Moment, j: nat)
    requires StampedBy(today, cs, k, at) && k < j < |cs| && WritesOpen(Loaded(today, cs, j), cs[j].op)
    requires ClosedFrom(today, cs[..j], k)
    ensures StaleOpens(today, cs, k, j)
  {
    hide RowAfter, Merged, WritesOpen;
    var b := Base(cs[j], j);
    if b > k {
      assert cs[..j][..b] == cs[..b];
      OneChangeMore(today, cs, j);
      ReopeningClears(Loaded(today, cs, j), cs[j].op, RowAfter(today, cs[..j]));
    }
  }

  lemma {:induction false} ClosedUpTo(today: Moment, cs: seq<Change>, k: nat, at: Moment, n: nat)
    requires StampedBy(today, cs, k, at) && k < n <= |cs| && NoneStaleOpens(today, cs, k)
    ensures ClosedFrom(today, cs[..n], k)
    decreases n
  {
    hide RowAfter, WritesOpen, Loaded;
    var most := cs[..n];
    assert most[..k + 1] == cs[..k + 1];
    ClosedFromIff(today, most, k);
    forall j | k < j < n ensures !WritesOpen(Loaded(today, most, j), most[j].op) {
      LoadedBefore(today, cs, n, j);
      ClosedUpTo(today, cs, k, at, j);
      if WritesOpen(Loaded(today, cs, j), cs[j].op) {
        FirstOpenerIsStale(today, cs, k, at, j);
      }
    }
  }

  // In every history: the stamp on a report is that of a commit that closed it,
  // and it has been closed without interruption since exactly if no request that
  // loaded the row before that commit has written an open status after it.
  lemma ClosedSinceItsStampIff(today: Moment, cs: seq<Change>, at: Moment) returns (k: nat)
    requires RowAfter(today, cs).closed == Some(at)
    ensures StampedBy(today, cs, k, at)
    ensures ClosedFrom(today, cs, k) <==> NoneStaleOpens(today, cs, k)
  {
    k := StampComesFrom(today, cs, at);
    ClosedFromIff(today, cs, k);
    if NoneStaleOpens(today, cs, k) {
      ClosedUpTo(today, cs, k, at, |cs|);
      assert cs[..|cs|] == cs;
    }
  }

  // Requests that take effect one at a time have none of that.
  lemma InTurnIsNeverStale(today: Moment, cs: seq<Change>, k: nat)
    requires InTurn(cs)
    ensures NoneStaleOpens(today, cs, k)
  {
  }
}
