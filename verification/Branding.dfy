/**
 * The branding snapshot that every page reads from Redis, kept apart from the
 * database by a version number (app/services/branding.py). A page load asks
 * Redis, perhaps reads the database, perhaps writes the cache; a save commits,
 * increments the version and drops the cache. Any of them may stop half-way.
 */
module Branding {
  import opened Options

  type Snapshot = map<string, map<string, string>>

  // What the cache key holds; Garbled is anything that is not a snapshot.
  datatype Cache = Empty | Garbled | Entry(version: nat, rows: Snapshot)

  // Zero stands for an absent version key, which INCR takes to one.
  function Served(cached: Cache, version: nat): Option<Snapshot> {
    if cached.Entry? && cached.version == version then Some(cached.rows) else None
  }

  // The two keys.
  class Keys {
    var cached: Cache
    var version: nat

    constructor ()
      ensures cached == Empty && version == 0
    {
      cached, version := Empty, 0;
    }

    // snapshot's MGET.
    method Lookup() returns (rows: Option<Snapshot>, seen: nat)
      ensures seen == version && rows == Served(cached, version)
    {
      seen := version;
      rows := None;
      match cached {
        case Entry(v, found) => if v == seen { rows := Some(found); }
        case _ =>
      }
    }

    // _store: what was loaded goes in under the version seen before the load.
    method Store(seen: nat, snap: Snapshot)
      modifies this`cached
      ensures cached == Entry(seen, snap)
      ensures seen == version <==> Served(cached, version) == Some(snap)
    {
      cached := Entry(seen, snap);
    }

    // invalidate: no load that looked before it can be served after it.
    method Invalidate()
      modifies this
      ensures version == old(version) + 1 && cached == Empty
      ensures forall seen: nat, snap: Snapshot | seen <= old(version) :: Served(Entry(seen, snap), version).None?
    {
      version := version + 1;
      cached := Empty;
    }
  }

  // ── Loads and saves, step by step ─────────────────────────────────

  datatype Load =
    | Missed(seen: nat)
    | Loaded(seen: nat, rows: Snapshot)
    | Returned(rows: Snapshot)

  // A save's place in the history, and how far it has come.
  datatype Save = Committed(index: nat) | Announced(index: nat) | Finished(index: nat)

  // The history is every state the branding table has had, newest last.
  datatype State = State(
    history: seq<Snapshot>,
    cached: Cache,
    version: nat,
    loads: map<nat, Load>,
    saves: map<nat, Save>)

  datatype Step =
    | Look(p: nat)                       // MGET: a hit returns at once
    | Read(p: nat)                       // the rows, from the database
    | Write(p: nat)                      // _store, and return
    | Commit(p: nat, rows: Snapshot)
    | Announce(p: nat)                   // INCR
    | Drop(p: nat)                       // DEL
    | Expire                             // an hour has passed
    | Damage                             // someone else wrote the key

  function Initial(rows: Snapshot): State { State([rows], Empty, 0, map[], map[]) }

  predicate Enabled(s: State, a: Step) {
    && s.history != []
    && match a
       case Look(p) => p !in s.loads
       case Read(p) => p in s.loads && s.loads[p].Missed?
       case Write(p) => p in s.loads && s.loads[p].Loaded?
       case Commit(p, _) => p !in s.saves
       case Announce(p) => p in s.saves && s.saves[p].Committed?
       case Drop(p) => p in s.saves && s.saves[p].Announced?
       case _ => true
  }

  function Apply(s: State, a: Step): State
    requires Enabled(s, a)
  {
    match a
    case Look(p) =>
      var hit := Served(s.cached, s.version);
      s.(loads := s.loads[p := if hit.Some? then Returned(hit.value) else Missed(s.version)])
    case Read(p) =>
      s.(loads := s.loads[p := Loaded(s.loads[p].seen, s.history[|s.history| - 1])])
    case Write(p) =>
      var l := s.loads[p];
      s.(loads := s.loads[p := Returned(l.rows)], cached := Entry(l.seen, l.rows))
    case Commit(p, rows) =>
      s.(history := s.history + [rows], saves := s.saves[p := Committed(|s.history|)])
    case Announce(p) =>
      s.(version := s.version + 1, saves := s.saves[p := Announced(s.saves[p].index)])
    case Drop(p) => s.(cached := Empty, saves := s.saves[p := Finished(s.saves[p].index)])
    case Expire => s.(cached := Empty)
    case Damage => s.(cached := Garbled)
  }

  predicate Run(s: State, steps: seq<Step>)
    decreases |steps|
  {
    steps == [] || (Enabled(s, steps[0]) && Run(Apply(s, steps[0]), steps[1..]))
  }

  function End(s: State, steps: seq<Step>): State
    requires Run(s, steps)
    decreases |steps|
  {
    if steps == [] then s else End(Apply(s, steps[0]), steps[1..])
  }

  // ── One request by itself ─────────────────────────────────────────

  // A page that hits the cache returns what is there and changes nothing.
  lemma AHitAlone(s: State, p: nat)
    requires s.history != [] && p !in s.loads && s.cached.Entry? && s.cached.version == s.version
    ensures Enabled(s, Look(p)) && Apply(s, Look(p)) == s.(loads := s.loads[p := Returned(s.cached.rows)])
  {
  }

  // One that misses returns the table and leaves it in the cache.
  lemma AMissAlone(s: State, p: nat)
    requires s.history != [] && p !in s.loads && !(s.cached.Entry? && s.cached.version == s.version)
    ensures var table := s.history[|s.history| - 1];
            var steps := [Look(p), Read(p), Write(p)];
            Run(s, steps) && End(s, steps) == s.(cached := Entry(s.version, table), loads := s.loads[p := Returned(table)])
  {
    var s1 := Apply(s, Look(p));
    var s2 := Apply(s1, Read(p));
    Three(s, Look(p), Read(p), Write(p));
    assert Apply(s2, Write(p)).loads == s.loads[p := Returned(s.history[|s.history| - 1])];
  }

  // A save changes the table, the version, and leaves no entry.
  lemma ASaveAlone(s: State, w: nat, rows: Snapshot)
    requires s.history != [] && w !in s.saves
    ensures var steps := [Commit(w, rows), Announce(w), Drop(w)];
            Run(s, steps) && End(s, steps) ==
              s.(history := s.history + [rows], version := s.version + 1, cached := Empty,
                 saves := s.saves[w := Finished(|s.history|)])
  {
    var s1 := Apply(s, Commit(w, rows));
    var s2 := Apply(s1, Announce(w));
    Three(s, Commit(w, rows), Announce(w), Drop(w));
    assert Apply(s2, Drop(w)).saves == s.saves[w := Finished(|s.history|)];
  }

  // An entry that expires or is damaged is a miss, whenever that happens.
  lemma ALostEntryIsAMiss(s: State, a: Step)
    requires s.history != [] && (a.Expire? || a.Damage?)
    ensures Enabled(s, a) && Served(Apply(s, a).cached, s.version).None? && Apply(s, a) == s.(cached := Apply(s, a).cached)
    ensures Apply(s, a).cached.Empty? <==> a.Expire?
  {
  }

  lemma Three(s: State, a: Step, b: Step, c: Step)
    requires Enabled(s, a) && Enabled(Apply(s, a), b) && Enabled(Apply(Apply(s, a), b), c)
    ensures Run(s, [a, b, c]) && End(s, [a, b, c]) == Apply(Apply(Apply(s, a), b), c)
  {
    hide Enabled, Apply;
    assert [a, b, c][1..] == [b, c] && [b, c][1..] == [c] && [c][1..] == [];
    var s1 := Apply(s, a);
    var s2 := Apply(s1, b);
    assert Run(s2, [c]) && End(s2, [c]) == Apply(s2, c);
    assert Run(s1, [b, c]) && End(s1, [b, c]) == Apply(s2, c);
  }

  // ── The invariant ─────────────────────────────────────────────────

  // The rows are the table's as of the n-th commit, or newer.
  predicate AsNewAs(history: seq<Snapshot>, rows: Snapshot, n: nat) {
    exists k :: n <= k < |history| && history[k] == rows
  }

  // Rows read under the version still current are as new as every announced save.
  ghost predicate Current(s: State, seen: nat, rows: Snapshot) {
    && seen <= s.version
    && (seen == s.version ==>
          forall p | p in s.saves && !s.saves[p].Committed? :: AsNewAs(s.history, rows, s.saves[p].index))
  }

  ghost predicate Coherent(s: State) {
    && s.history != []
    && (forall p | p in s.saves :: s.saves[p].index < |s.history|)
    && (s.cached.Entry? ==> Current(s, s.cached.version, s.cached.rows))
    && (forall p | p in s.loads :: s.loads[p].Missed? ==> s.loads[p].seen <= s.version)
    && (forall p | p in s.loads :: s.loads[p].Loaded? ==> Current(s, s.loads[p].seen, s.loads[p].rows))
  }

  // History only grows, so what was as new as a save stays so.
  lemma StaysAsNew(history: seq<Snapshot>, more: seq<Snapshot>, rows: Snapshot, n: nat)
    requires AsNewAs(history, rows, n)
    ensures AsNewAs(history + more, rows, n)
  {
    var k :| n <= k < |history| && history[k] == rows;
    assert (history + more)[k] == rows;
  }

  lemma StaysCurrent(s: State, a: Step, seen: nat, rows: Snapshot)
    requires Coherent(s) && Enabled(s, a) && Current(s, seen, rows)
    ensures Current(Apply(s, a), seen, rows)
  {
    var t := Apply(s, a);
    if seen == t.version {
      forall p | p in t.saves && !t.saves[p].Committed? ensures AsNewAs(t.history, rows, t.saves[p].index) {
        assert p in s.saves && !s.saves[p].Committed? && t.saves[p].index == s.saves[p].index;
        if a.Commit? {
          StaysAsNew(s.history, [a.rows], rows, s.saves[p].index);
        }
      }
    }
  }

  // What the database says now is current.
  lemma ReadIsCurrent(s: State, seen: nat)
    requires Coherent(s) && seen <= s.version
    ensures Current(s, seen, s.history[|s.history| - 1])
  {
    var last := |s.history| - 1;
    forall p | p in s.saves ensures AsNewAs(s.history, s.history[last], s.saves[p].index) {
      assert s.saves[p].index <= last < |s.history|;
    }
  }

  lemma StaysCoherent(s: State, a: Step)
    requires Coherent(s) && Enabled(s, a)
    ensures Coherent(Apply(s, a))
  {
    var t := Apply(s, a);
    forall p | p in s.loads && s.loads[p].Loaded? ensures Current(t, s.loads[p].seen, s.loads[p].rows) {
      StaysCurrent(s, a, s.loads[p].seen, s.loads[p].rows);
    }
    if s.cached.Entry? {
      StaysCurrent(s, a, s.cached.version, s.cached.rows);
    }
    if a.Read? {
      ReadIsCurrent(s, s.loads[a.p].seen);
    }
    hide AsNewAs;
  }

  // ── A save is seen ────────────────────────────────────────────────

  // What load p will return is as new as commit n, from a moment when n was
  // announced and p had not looked.
  ghost predicate WillSee(s: State, p: nat, w: nat) {
    && w in s.saves && !s.saves[w].Committed?
    && (p in s.loads ==>
          match s.loads[p]
          case Missed(_) => true
          case Loaded(_, rows) => AsNewAs(s.history, rows, s.saves[w].index)
          case Returned(rows) => AsNewAs(s.history, rows, s.saves[w].index))
  }

  lemma KeepsSeeing(s: State, a: Step, p: nat, w: nat)
    requires Coherent(s) && Enabled(s, a) && WillSee(s, p, w)
    ensures WillSee(Apply(s, a), p, w) && Apply(s, a).saves[w].index == s.saves[w].index
  {
    var n, t := s.saves[w].index, Apply(s, a);
    if p in s.loads && !s.loads[p].Missed? && a.Commit? {
      StaysAsNew(s.history, [a.rows], s.loads[p].rows, n);
    }
    if a == Read(p) {
      assert s.history[|s.history| - 1] == t.loads[p].rows && n <= |s.history| - 1;
      assert AsNewAs(s.history, t.loads[p].rows, n);
    }
    hide AsNewAs;
  }

  lemma {:induction false} RunKeepsSeeing(s: State, steps: seq<Step>, p: nat, w: nat)
    requires Coherent(s) && Run(s, steps) && WillSee(s, p, w)
    ensures WillSee(End(s, steps), p, w) && End(s, steps).saves[w].index == s.saves[w].index
    decreases |steps|
  {
    if steps != [] {
      KeepsSeeing(s, steps[0], p, w);
      StaysCoherent(s, steps[0]);
      RunKeepsSeeing(Apply(s, steps[0]), steps[1..], p, w);
    }
  }

  lemma {:induction false} RunStaysCoherent(s: State, steps: seq<Step>)
    requires Coherent(s) && Run(s, steps)
    ensures Coherent(End(s, steps))
    decreases |steps|
  {
    if steps != [] {
      StaysCoherent(s, steps[0]);
      RunStaysCoherent(Apply(s, steps[0]), steps[1..]);
    }
  }

  // In every run: once a save has incremented the version, every page that
  // looks afterwards gets the table as that save left it, or newer, whatever
  // an older load writes meanwhile.
  lemma ASaveIsSeen(rows: Snapshot, before: seq<Step>, after: seq<Step>, w: nat, p: nat)
    requires Run(Initial(rows), before)
    requires var s := End(Initial(rows), before);
             && w in s.saves && !s.saves[w].Committed? && p !in s.loads && Run(s, after)
    requires var t := End(End(Initial(rows), before), after); p in t.loads && t.loads[p].Returned?
    ensures var s := End(Initial(rows), before);
            var t := End(s, after);
            AsNewAs(t.history, t.loads[p].rows, s.saves[w].index)
  {
    RunStaysCoherent(Initial(rows), before);
    RunKeepsSeeing(End(Initial(rows), before), after, p, w);
  }

  // ── What is served ────────────────────────────────────────────────

  function Announcements(steps: seq<Step>): nat {
    if steps == [] then 0 else (if steps[0].Announce? then 1 else 0) + Announcements(steps[1..])
  }

  lemma {:induction false} VersionCounts(s: State, steps: seq<Step>)
    requires Run(s, steps)
    ensures End(s, steps).version == s.version + Announcements(steps)
    decreases |steps|
  {
    if steps != [] {
      VersionCounts(Apply(s, steps[0]), steps[1..]);
    }
  }

  lemma {:induction false} MissStays(s: State, steps: seq<Step>, p: nat)
    requires Run(s, steps) && p in s.loads && !s.loads[p].Returned?
    requires p in End(s, steps).loads && !End(s, steps).loads[p].Returned?
    ensures End(s, steps).loads[p].seen == s.loads[p].seen
    decreases |steps|
  {
    if steps != [] {
      var t := Apply(s, steps[0]);
      if t.loads[p].Returned? {
        ReturnedStays(t, steps[1..], p);
      } else {
        MissStays(t, steps[1..], p);
      }
    }
  }

  lemma {:induction false} ReturnedStays(s: State, steps: seq<Step>, p: nat)
    requires Run(s, steps) && p in s.loads && s.loads[p].Returned?
    ensures p in End(s, steps).loads && End(s, steps).loads[p] == s.loads[p]
    decreases |steps|
  {
    if steps != [] {
      ReturnedStays(Apply(s, steps[0]), steps[1..], p);
    }
  }

  // A load's entry serves the pages after it exactly when no save was
  // announced between its look and its write.
  lemma WrittenIsServedIff(s: State, steps: seq<Step>, p: nat)
    requires Enabled(s, Look(p)) && Served(s.cached, s.version).None?
    requires Run(Apply(s, Look(p)), steps) && Enabled(End(Apply(s, Look(p)), steps), Write(p))
    ensures var t := Apply(End(Apply(s, Look(p)), steps), Write(p));
            && (Served(t.cached, t.version).Some? <==> Announcements(steps) == 0)
            && t.loads[p].Returned?
            && (Announcements(steps) == 0 ==> Served(t.cached, t.version) == Some(t.loads[p].rows))
  {
    var s1 := Apply(s, Look(p));
    VersionCounts(s1, steps);
    MissStays(s1, steps, p);
  }
}
