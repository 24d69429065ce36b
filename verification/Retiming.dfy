/**
 * Message times: migration 006, which rounds what a reporter caused to its day
 * and keeps a thread's order, and the live path that gives new messages their
 * times (app/services/report.py). Times are microseconds since the epoch, UTC.
 */
module Retiming {
  import opened Calendar

  datatype Sender = Whistleblower | Admin
  datatype Message = Message(id: nat, sender: Sender, sentAt: int)

  function DayFloor(t: int): int { t - t % DAY }

  function Max(a: int, b: int): int { if a < b then b else a }

  // ── The migration ─────────────────────────────────────────────────

  // A thread is in the order of sent_at and id. The receipt, its first message,
  // is the reporter's doing too.
  function Rounded(thread: seq<Message>): (r: seq<int>)
    ensures |r| == |thread|
  {
    seq(|thread|, i requires 0 <= i < |thread| =>
      if i == 0 || thread[i].sender == Whistleblower then DayFloor(thread[i].sentAt) else thread[i].sentAt)
  }

  // max(r - n) OVER (ORDER BY n), up to the message at n
  function WindowMax(r: seq<int>, n: nat): int
    requires n < |r|
  {
    if n == 0 then r[0] else Max(WindowMax(r, n - 1), r[n] - n)
  }

  function New(r: seq<int>): (t: seq<int>)
    ensures |t| == |r|
  {
    seq(|r|, n requires 0 <= n < |r| => WindowMax(r, n) + n)
  }

  function Timed(thread: seq<Message>, times: seq<int>): seq<Message>
    requires |times| == |thread|
  {
    seq(|thread|, i requires 0 <= i < |thread| => thread[i].(sentAt := times[i]))
  }

  function Migrated(thread: seq<Message>): seq<Message> { Timed(thread, New(Rounded(thread))) }

  predicate Increasing(t: seq<int>) { forall i, j | 0 <= i < j < |t| :: t[i] < t[j] }

  // The closed form: the new time is the maximum over k <= n of r(k) + (n - k).
  lemma {:induction false} ClosedForm(r: seq<int>, n: nat)
    requires n < |r|
    ensures forall k | 0 <= k <= n :: r[k] + (n - k) <= New(r)[n]
    ensures exists k :: 0 <= k <= n && New(r)[n] == r[k] + (n - k)
    decreases n
  {
    if n == 0 {
      assert New(r)[0] == r[0] + (0 - 0);
    } else {
      ClosedForm(r, n - 1);
      var k :| 0 <= k <= n - 1 && New(r)[n - 1] == r[k] + (n - 1 - k);
      if WindowMax(r, n - 1) < r[n] - n {
        assert New(r)[n] == r[n] + (n - n);
      } else {
        assert New(r)[n] == r[k] + (n - k);
      }
      forall j | 0 <= j <= n ensures r[j] + (n - j) <= New(r)[n] {
        if j < n {
          assert r[j] + (n - 1 - j) <= New(r)[n - 1];
        }
      }
    }
  }

  // The recurrence: at its rounded time, or a microsecond after its predecessor.
  lemma Recurrence(r: seq<int>, n: nat)
    requires n < |r|
    ensures New(r)[n] == if n == 0 then r[0] else Max(r[n], New(r)[n - 1] + 1)
  {
  }

  lemma {:induction false} NewIncreases(r: seq<int>, i: nat, j: nat)
    requires i < j < |r|
    ensures New(r)[i] < New(r)[j]
    decreases j
  {
    Recurrence(r, j);
    if i < j - 1 {
      NewIncreases(r, i, j - 1);
    }
  }

  // No increasing sequence at or above r is below the new times anywhere.
  lemma {:induction false} NewIsLeast(r: seq<int>, s: seq<int>, n: nat)
    requires |s| == |r| && Increasing(s) && (forall i | 0 <= i < |r| :: r[i] <= s[i]) && n < |r|
    ensures New(r)[n] <= s[n]
    decreases n
  {
    Recurrence(r, n);
    if n > 0 {
      NewIsLeast(r, s, n - 1);
      assert s[n - 1] < s[n];
    }
  }

  // It is the least increasing sequence at or above r.
  lemma LeastIncreasing(r: seq<int>)
    ensures Increasing(New(r)) && forall i | 0 <= i < |r| :: r[i] <= New(r)[i]
    ensures forall s, n | |s| == |r| && Increasing(s) && (forall i | 0 <= i < |r| :: r[i] <= s[i]) && 0 <= n < |r| ::
              New(r)[n] <= s[n]
  {
    forall i, j | 0 <= i < j < |r| ensures New(r)[i] < New(r)[j] {
      NewIncreases(r, i, j);
    }
    forall i | 0 <= i < |r| ensures r[i] <= New(r)[i] {
      Recurrence(r, i);
    }
    forall s, n | |s| == |r| && Increasing(s) && (forall i | 0 <= i < |r| :: r[i] <= s[i]) && 0 <= n < |r|
      ensures New(r)[n] <= s[n]
    {
      NewIsLeast(r, s, n);
    }
  }

  // The midnight before, or the time itself.
  lemma DayFloorIs(t: int)
    ensures DayFloor(t) <= t < DayFloor(t) + 86_400_000_000 && DayFloor(t) % 86_400_000_000 == 0
  {
  }

  // What the migration gives: the receipt and each of the reporter's messages
  // its midnight, the office's their time, but no message less than a
  // microsecond after the one before it. Nothing else of a message changes.
  lemma MigratedIs(thread: seq<Message>, n: nat)
    requires n < |thread|
    ensures var at, m := thread[n].sentAt, Migrated(thread);
            var mine := if n == 0 || thread[n].sender == Whistleblower then at - at % 86_400_000_000 else at;
            && m[n] == thread[n].(sentAt := m[n].sentAt)
            && (n == 0 ==> m[n].sentAt == mine)
            && (n > 0 ==> m[n].sentAt >= mine && m[n].sentAt > m[n - 1].sentAt
                          && (m[n].sentAt == mine || m[n].sentAt == m[n - 1].sentAt + 1))
  {
    Recurrence(Rounded(thread), n);
  }

  // Messages keep their order, strictly.
  lemma KeepsOrder(thread: seq<Message>)
    ensures forall i, j | 0 <= i < j < |thread| :: Migrated(thread)[i].sentAt < Migrated(thread)[j].sentAt
    ensures forall i | 0 <= i < |thread| :: Migrated(thread)[i].id == thread[i].id
  {
    LeastIncreasing(Rounded(thread));
  }

  lemma FloorOfFloor(t: int)
    ensures DayFloor(DayFloor(t)) == DayFloor(t) <= t
  {
  }

  // Rounding the new times gives nothing that would move them again: what was
  // pushed behind its predecessor rounds to no later than where it is.
  lemma {:induction false} SecondPass(thread: seq<Message>, n: nat)
    requires n < |thread|
    ensures New(Rounded(Migrated(thread)))[n] == New(Rounded(thread))[n]
    decreases n
  {
    var r, m := Rounded(thread), Migrated(thread);
    Recurrence(r, n);
    Recurrence(Rounded(m), n);
    FloorOfFloor(thread[n].sentAt);
    FloorOfFloor(New(r)[n]);
    if n > 0 {
      SecondPass(thread, n - 1);
    }
  }

  // Running it again changes nothing.
  lemma MigratedTwice(thread: seq<Message>)
    ensures Migrated(Migrated(thread)) == Migrated(thread)
  {
    forall n | 0 <= n < |thread| ensures New(Rounded(Migrated(thread)))[n] == New(Rounded(thread))[n] {
      SecondPass(thread, n);
    }
  }

  // ── The live path ─────────────────────────────────────────────────

  // max(sent_at) of a thread
  function Latest(times: seq<int>): int
    requires times != []
  {
    if |times| == 1 then times[0] else Max(Latest(times[..|times| - 1]), times[|times| - 1])
  }

  // _next_sent_at: `earliest`, or just after the last message.
  function NextSentAt(times: seq<int>, earliest: int): int {
    if times != [] && Latest(times) >= earliest then Latest(times) + 1 else earliest
  }

  function Times(thread: seq<Message>): (t: seq<int>)
    ensures |t| == |thread|
  {
    seq(|thread|, i requires 0 <= i < |thread| => thread[i].sentAt)
  }

  // A post by a reporter takes the day, one by the office the time.
  datatype Post = Post(id: nat, sender: Sender, now: int)

  function Earliest(p: Post): int { if p.sender == Whistleblower then DayFloor(p.now) else p.now }

  function Posted(thread: seq<Message>, p: Post): seq<Message> {
    thread + [Message(p.id, p.sender, NextSentAt(Times(thread), Earliest(p)))]
  }

  // create_report's thread: the receipt, at the day of submission.
  function Opened(id: nat, now: int): seq<Message> { [Message(id, Admin, DayFloor(now))] }

  function Live(thread: seq<Message>, posts: seq<Post>): seq<Message>
    decreases |posts|
  {
    if posts == [] then thread else Live(Posted(thread, posts[0]), posts[1..])
  }

  /** A thread as rows are added to it. */
  class Thread {
    var messages: seq<Message>

    constructor (id: nat, now: int)
      ensures messages == Opened(id, now)
    {
      messages := [Message(id, Admin, DayFloor(now))];
    }

    // SELECT max(sent_at)
    method LatestSentAt() returns (latest: int)
      requires messages != []
      ensures latest == Latest(Times(messages))
      ensures forall m | m in messages :: m.sentAt <= latest
    {
      latest := messages[0].sentAt;
      var i := 1;
      assert Times(messages)[..1] == [latest];
      while i < |messages|
        invariant 1 <= i <= |messages|
        invariant latest == Latest(Times(messages)[..i])
        invariant forall k | 0 <= k < i :: messages[k].sentAt <= latest
      {
        var t := Times(messages);
        assert t[..i + 1][..i] == t[..i];
        if latest < messages[i].sentAt {
          latest := messages[i].sentAt;
        }
        i := i + 1;
      }
      assert Times(messages)[..|messages|] == Times(messages);
    }

    method AddMessage(p: Post)
      modifies this
      ensures messages == Posted(old(messages), p)
      ensures messages[..|messages| - 1] == old(messages)
      ensures forall m | m in old(messages) :: m.sentAt < messages[|messages| - 1].sentAt
    {
      var sentAt := if p.sender == Whistleblower then DayFloor(p.now) else p.now;
      if messages != [] {
        var latest := LatestSentAt();
        if latest >= sentAt {
          sentAt := latest + 1;
        }
      }
      messages := messages + [Message(p.id, p.sender, sentAt)];
    }
  }

  lemma {:induction false} LatestIsLast(times: seq<int>)
    requires times != [] && Increasing(times)
    ensures Latest(times) == times[|times| - 1]
    decreases |times|
  {
    if |times| > 1 {
      LatestIsLast(times[..|times| - 1]);
    }
  }

  lemma {:induction false} WindowMaxPrefix(r: seq<int>, s: seq<int>, n: nat)
    requires n < |r|
    ensures WindowMax(r + s, n) == WindowMax(r, n)
    decreases n
  {
    if n > 0 {
      WindowMaxPrefix(r, s, n - 1);
    }
  }

  lemma LastIsLatest(r: seq<int>)
    requires r != []
    ensures Latest(New(r)) == New(r)[|r| - 1]
  {
    forall i, j | 0 <= i < j < |r| ensures New(r)[i] < New(r)[j] {
      NewIncreases(r, i, j);
    }
    LatestIsLast(New(r));
  }

  lemma OneMore(r: seq<int>, e: int)
    requires r != []
    ensures New(r + [e]) == New(r) + [NextSentAt(New(r), e)]
  {
    var s := r + [e];
    Recurrence(s, |r|);
    LastIsLatest(r);
    forall n | 0 <= n < |r| ensures New(s)[n] == New(r)[n] {
      WindowMaxPrefix(r, [e], n);
    }
    hide WindowMax, Latest;
  }

  // A new message's time is what the recurrence gives it.
  lemma OnePost(thread: seq<Message>, r: seq<int>, p: Post)
    requires thread != [] && Times(thread) == New(r)
    ensures Times(Posted(thread, p)) == New(r + [Earliest(p)])
  {
    OneMore(r, Earliest(p));
    hide New, Latest, NextSentAt, Earliest;
    assert Times(Posted(thread, p)) == Times(thread) + [NextSentAt(Times(thread), Earliest(p))];
  }

  function Earliests(posts: seq<Post>): seq<int> {
    if posts == [] then [] else [Earliest(posts[0])] + Earliests(posts[1..])
  }

  lemma {:induction false} LiveFollows(thread: seq<Message>, r: seq<int>, posts: seq<Post>)
    requires thread != [] && Times(thread) == New(r)
    ensures Times(Live(thread, posts)) == New(r + Earliests(posts))
    decreases |posts|
  {
    if posts == [] {
      assert r + [] == r;
    } else {
      OnePost(thread, r, posts[0]);
      LiveFollows(Posted(thread, posts[0]), r + [Earliest(posts[0])], posts[1..]);
      assert r + Earliests(posts) == r + [Earliest(posts[0])] + Earliests(posts[1..]);
    }
  }

  // A thread grown live has the times the closed form gives.
  lemma LiveIsRetimed(id: nat, now: int, posts: seq<Post>)
    ensures Times(Live(Opened(id, now), posts)) == New([DayFloor(now)] + Earliests(posts))
  {
    assert Times(Opened(id, now)) == New([DayFloor(now)]);
    LiveFollows(Opened(id, now), [DayFloor(now)], posts);
  }

  lemma {:induction false} LiveSenders(thread: seq<Message>, posts: seq<Post>)
    requires thread != []
    ensures |Live(thread, posts)| == |thread| + |posts|
    ensures Live(thread, posts)[..|thread|] == thread
    ensures forall i | 0 <= i < |posts| :: Live(thread, posts)[|thread| + i].sender == posts[i].sender
    ensures |Earliests(posts)| == |posts| && forall i | 0 <= i < |posts| :: Earliests(posts)[i] == Earliest(posts[i])
    decreases |posts|
  {
    if posts != [] {
      var next := Posted(thread, posts[0]);
      LiveSenders(next, posts[1..]);
      var all := Live(thread, posts);
      assert all[..|thread|] == all[..|next|][..|thread|] == thread;
      assert all[|thread|] == all[..|next|][|thread|] == next[|thread|];
      forall i | 0 <= i < |posts| ensures all[|thread| + i].sender == posts[i].sender {
        if i > 0 {
          assert posts[i] == posts[1..][i - 1];
        }
      }
    }
  }

  // Each message of a live thread would be rounded to no more than it has.
  lemma {:induction false} LiveStays(thread: seq<Message>, r: seq<int>, n: nat)
    requires |r| == |thread| && Times(thread) == New(r) && n < |thread|
    requires forall i | 0 <= i < |r| && (i == 0 || thread[i].sender == Whistleblower) :: DayFloor(r[i]) == r[i]
    ensures New(Rounded(thread))[n] == thread[n].sentAt
    decreases n
  {
    Recurrence(r, n);
    Recurrence(Rounded(thread), n);
    FloorOfFloor(thread[n].sentAt);
    assert thread[n].sentAt == New(r)[n];
    if n > 0 {
      LiveStays(thread, r, n - 1);
    }
  }

  // The migration leaves a thread grown live as it is.
  lemma LiveIsMigrated(id: nat, now: int, posts: seq<Post>)
    ensures Migrated(Live(Opened(id, now), posts)) == Live(Opened(id, now), posts)
  {
    var start := Opened(id, now);
    var thread, r := Live(start, posts), [DayFloor(now)] + Earliests(posts);
    LiveIsRetimed(id, now, posts);
    LiveSenders(start, posts);
    forall i | 0 <= i < |r| && (i == 0 || thread[i].sender == Whistleblower) ensures DayFloor(r[i]) == r[i] {
      if i == 0 {
        FloorOfFloor(now);
      } else {
        assert thread[1 + (i - 1)].sender == posts[i - 1].sender;
        FloorOfFloor(posts[i - 1].now);
      }
    }
    forall n | 0 <= n < |thread| ensures New(Rounded(thread))[n] == thread[n].sentAt {
      LiveStays(thread, r, n);
    }
  }
}
