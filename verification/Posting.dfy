/**
 * Messages posted to one thread at once (app/services/report.py): each takes
 * the lock on the report's row, reads the last time, inserts its message and
 * commits, which lets the lock go.
 */
module Posting {
  import opened Options
  import opened Retiming

  datatype Phase = Called | Locked | Timed(sentAt: int)

  datatype Request = Request(post: Post, phase: Phase)

  // The committed thread, and who holds the lock.
  datatype State = State(thread: seq<Message>, lock: Option<nat>, requests: map<nat, Request>)

  datatype Step =
    | Call(q: nat, post: Post)           // its clock is read before the lock
    | Lock(q: nat)
    | Look(q: nat)
    | Commit(q: nat)
    | GiveUp(q: nat)                     // an error or a crash: rolled back

  predicate At(s: State, q: nat, phase: Phase) { q in s.requests && s.requests[q].phase == phase }

  predicate Enabled(s: State, a: Step) {
    match a
    case Call(q, _) => q !in s.requests
    case Lock(q) => At(s, q, Called) && s.lock.None?
    case Look(q) => At(s, q, Locked)
    case Commit(q) => q in s.requests && s.requests[q].phase.Timed?
    case GiveUp(q) => q in s.requests
  }

  function Released(s: State, q: nat): State {
    s.(lock := if s.lock == Some(q) then None else s.lock, requests := s.requests - {q})
  }

  function Apply(s: State, a: Step): State
    requires Enabled(s, a)
  {
    match a
    case Call(q, post) => s.(requests := s.requests[q := Request(post, Called)])
    case Lock(q) => s.(lock := Some(q), requests := s.requests[q := s.requests[q].(phase := Locked)])
    case Look(q) =>
      var sentAt := NextSentAt(Times(s.thread), Earliest(s.requests[q].post));
      s.(requests := s.requests[q := s.requests[q].(phase := Phase.Timed(sentAt))])
    case Commit(q) =>
      var r := s.requests[q];
      Released(s, q).(thread := s.thread + [Message(r.post.id, r.post.sender, r.phase.sentAt)])
    case GiveUp(q) => Released(s, q)
  }

  predicate Run(s: State, steps: seq<Step>)
    decreases |steps|
  {
    steps == [] || (Enabled(s, steps[0]) && Run(Apply(s, steps[0]), steps[1..]))
  }

  function End(s: State, steps: seq<Step>): State
    requires Run(s, steps)
    decreases |steps|
  {
    if steps == [] then s else End(Apply(s, steps[0]), steps[1..])
  }

  function Initial(id: nat, now: int): State { State(Opened(id, now), None, map[]) }

  // One message with nobody before it, from its call to its commit.
  lemma OnePostAlone(s: State, q: nat, post: Post)
    requires q !in s.requests && s.lock.None?
    ensures var steps := [Call(q, post), Lock(q), Look(q), Commit(q)];
            Run(s, steps) && End(s, steps) == s.(thread := Posted(s.thread, post))
  {
    hide NextSentAt, Times, Earliest;
    var s1 := Apply(s, Call(q, post));
    var s2 := Apply(s1, Lock(q));
    var s3 := Apply(s2, Look(q));
    var s4 := Apply(s3, Commit(q));
    assert s4.requests == s.requests && s4 == s.(thread := Posted(s.thread, post));
    hide Apply, Enabled, Posted;
    Unfolds(s3, Commit(q), []);
    Unfolds(s2, Look(q), [Commit(q)] + []);
    Unfolds(s1, Lock(q), [Look(q)] + ([Commit(q)] + []));
    Unfolds(s, Call(q, post), [Lock(q)] + ([Look(q)] + ([Commit(q)] + [])));
    assert [Call(q, post)] + ([Lock(q)] + ([Look(q)] + ([Commit(q)] + []))) == [Call(q, post), Lock(q), Look(q), Commit(q)];
  }

  lemma Unfolds(s: State, a: Step, rest: seq<Step>)
    requires Enabled(s, a) && Run(Apply(s, a), rest)
    ensures Run(s, [a] + rest) && End(s, [a] + rest) == End(Apply(s, a), rest)
  {
    hide Enabled, Apply;
    assert ([a] + rest)[1..] == rest;
  }

  // Whoever has looked holds the lock, and the last time is still the one seen;
  // and the lock is held by a request that has not ended.
  ghost predicate Guarded(s: State) {
    && (s.lock.Some? ==> s.lock.value in s.requests && !s.requests[s.lock.value].phase.Called?)
    && forall q | q in s.requests && !s.requests[q].phase.Called? ::
      && s.lock == Some(q)
      && (s.requests[q].phase.Timed? ==>
            s.requests[q].phase.sentAt == NextSentAt(Times(s.thread), Earliest(s.requests[q].post)))
  }

  lemma StaysGuarded(s: State, a: Step)
    requires Guarded(s) && Enabled(s, a)
    ensures Guarded(Apply(s, a))
  {
    hide NextSentAt, Times, Earliest;
  }

  // A request that holds the lock can always end, and the lock is then free.
  lemma TheLockIsLetGo(s: State, q: nat)
    requires s.lock == Some(q) && q in s.requests && Guarded(s)
    ensures Enabled(s, GiveUp(q)) && Apply(s, GiveUp(q)) == s.(lock := None, requests := s.requests - {q})
    ensures Enabled(s, Commit(q)) || (Enabled(s, Look(q)) && Enabled(Apply(s, Look(q)), Commit(q)))
    ensures Enabled(s, Commit(q)) ==> Apply(s, Commit(q)).lock.None?
  {
  }

  // The messages that have committed, in that order.
  function Committed(s: State, steps: seq<Step>): seq<Post>
    requires Run(s, steps)
    decreases |steps|
  {
    if steps == [] then []
    else
      (if steps[0].Commit? then [s.requests[steps[0].q].post] else []) + Committed(Apply(s, steps[0]), steps[1..])
  }

  // In every run the thread is what the same messages, posted one after the
  // other in the order of their commits, make of it.
  lemma {:induction false} AsIfInTurn(s: State, steps: seq<Step>)
    requires Guarded(s) && Run(s, steps)
    ensures End(s, steps).thread == Live(s.thread, Committed(s, steps))
    decreases |steps|
  {
    if steps != [] {
      var a, t := steps[0], Apply(s, steps[0]);
      var rest := Committed(t, steps[1..]);
      StaysGuarded(s, a);
      AsIfInTurn(t, steps[1..]);
      if a.Commit? {
        var post := s.requests[a.q].post;
        assert t.thread == Posted(s.thread, post);
        assert ([post] + rest)[1..] == rest;
      } else {
        assert [] + rest == rest;
      }
    }
  }

  // So no two messages tie, and the migration leaves the thread as it is.
  lemma NoTwoTie(id: nat, now: int, steps: seq<Step>)
    requires Run(Initial(id, now), steps)
    ensures var thread := End(Initial(id, now), steps).thread;
            && (forall i, j | 0 <= i < j < |thread| :: thread[i].sentAt < thread[j].sentAt)
            && Migrated(thread) == thread
  {
    var thread := End(Initial(id, now), steps).thread;
    var posts := Committed(Initial(id, now), steps);
    AsIfInTurn(Initial(id, now), steps);
    LiveIsMigrated(id, now, posts);
    LiveIsRetimed(id, now, posts);
    LeastIncreasing([DayFloor(now)] + Earliests(posts));
    forall i, j | 0 <= i < j < |thread| ensures thread[i].sentAt < thread[j].sentAt {
      assert Times(thread)[i] < Times(thread)[j];
    }
  }

  // Two that looked at the same thread would tie: exactly if they are due at one
  // time, or neither later than just after the last message.
  lemma WouldTieIff(times: seq<int>, e: int, f: int)
    requires times != []
    ensures NextSentAt(times, e) == NextSentAt(times, f) <==>
            e == f || (e <= Latest(times) + 1 && f <= Latest(times) + 1)
  {
  }
}
