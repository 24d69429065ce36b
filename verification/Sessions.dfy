/**
 * Admin sessions (app/services/auth.py, session_refresh in app/api/auth.py):
 * logins, refreshes of a token that run side by side, and the sweep that ends
 * a user's sessions. A request that stops half-way is one that takes no
 * further step.
 */
module Sessions {
  import opened Options

  // ── The store and the sweep's script ──────────────────────────────

  datatype Key = Session(token: nat) | TotpPending(token: nat) | TotpSetup(token: nat) | Other(name: string)

  // Which of the sweep's three prefixes a key has.
  function Prefix(k: Key): Option<nat> {
    match k
    case Session(_) => Some(0)
    case TotpPending(_) => Some(1)
    case TotpSetup(_) => Some(2)
    case Other(_) => None
  }

  predicate Goes(keys: map<Key, nat>, k: Key, user: nat, kept: Option<nat>) {
    k in keys && Prefix(k).Some? && keys[k] == user && (kept.Some? ==> k != Session(kept.value))
  }

  function Swept(keys: map<Key, nat>, user: nat, kept: Option<nat>): map<Key, nat> {
    map k | k in keys && !Goes(keys, k, user, kept) :: keys[k]
  }

  // The script so far, with these keys looked at.
  ghost function SweptAmong(keys: map<Key, nat>, user: nat, kept: Option<nat>, seen: set<Key>): map<Key, nat> {
    map k | k in keys && !(Goes(keys, k, user, kept) && k in seen) :: keys[k]
  }

  lemma OneKeyMore(was: map<Key, nat>, user: nat, kept: Option<nat>, seen: set<Key>, k: Key)
    ensures var keys := SweptAmong(was, user, kept, seen);
            && (k in keys && Goes(was, k, user, kept) ==>
                  SweptAmong(was, user, kept, seen + {k}) == keys - {k} && |keys - {k}| == |keys| - 1)
            && (!(k in keys && Goes(was, k, user, kept)) ==> SweptAmong(was, user, kept, seen + {k}) == keys)
            && (k in keys ==> k in was && keys[k] == was[k])
  {
    var keys := SweptAmong(was, user, kept, seen);
    if k in keys && Goes(was, k, user, kept) {
      var m := keys - {k};
      assert SweptAmong(was, user, kept, seen + {k}) == m;
      assert m.Keys == keys.Keys - {k};
      assert |m.Keys| == |keys.Keys| - 1;
    } else {
      assert SweptAmong(was, user, kept, seen + {k}) == keys;
    }
  }

  ghost function On(page: seq<Key>): set<Key> { set k | k in page }

  lemma OnOneMore(page: seq<Key>, n: nat)
    requires n < |page|
    ensures On(page[..n + 1]) == On(page[..n]) + {page[n]}
  {
    assert page[..n + 1] == page[..n] + [page[n]];
  }

  ghost predicate AllSeen(pages: seq<seq<Key>>, seen: set<Key>) {
    forall j | 0 <= j < |pages| :: forall k | k in pages[j] :: k in seen
  }

  lemma AllKeysSeen(was: map<Key, nat>, user: nat, kept: Option<nat>, scans: seq<seq<seq<Key>>>, seen: set<Key>)
    requires |scans| == 3 && forall i | 0 <= i < 3 :: AllSeen(scans[i], seen)
    requires forall k | k in was && Prefix(k).Some? :: OnSomePage(scans[Prefix(k).value], k)
    ensures SweptAmong(was, user, kept, seen) == Swept(was, user, kept)
  {
    forall k | Goes(was, k, user, kept) ensures k in seen {
      assert OnSomePage(scans[Prefix(k).value], k);
      assert AllSeen(scans[Prefix(k).value], seen);
    }
  }

  class SessionStore {
    var keys: map<Key, nat>              // each key's value is the user's id

    constructor ()
      ensures keys == map[]
    {
      keys := map[];
    }

    method StoreSession(user: nat, token: nat)
      modifies this
      ensures keys == old(keys)[Session(token) := user]
    {
      keys := keys[Session(token) := user];
    }

    method RevokeSession(token: nat) returns (existed: bool)
      modifies this
      ensures existed <==> Session(token) in old(keys)
      ensures keys == old(keys) - {Session(token)}
    {
      existed := Session(token) in keys;
      keys := keys - {Session(token)};
    }

    // _SWEEP on one page of keys.
    method SweepPage(user: nat, kept: Option<nat>, page: seq<Key>, ghost was: map<Key, nat>, ghost seen: set<Key>)
      returns (removed: nat)
      requires forall m | 0 <= m < |page| :: Prefix(page[m]).Some?
      requires keys == SweptAmong(was, user, kept, seen)
      modifies this
      ensures keys == SweptAmong(was, user, kept, seen + On(page))
      ensures removed == |old(keys)| - |keys|
    {
      removed := 0;
      ghost var looked := seen;
      for n := 0 to |page|
        invariant looked == seen + On(page[..n])
        invariant keys == SweptAmong(was, user, kept, looked) && removed == |old(keys)| - |keys|
      {
        var key := page[n];
        OneKeyMore(was, user, kept, looked, key);
        hide SweptAmong, On;
        if (kept.None? || key != Session(kept.value)) && key in keys && keys[key] == user {
          keys := keys - {key};
          removed := removed + 1;
        }
        looked := looked + {key};
        OnOneMore(page, n);
      }
      assert page[..|page|] == page;
    }

    // _SWEEP. SCAN's pages may repeat a key and may name one already gone; it
    // promises that every key there from start to end is on some page.
    method Sweep(user: nat, kept: Option<nat>, scans: seq<seq<seq<Key>>>) returns (removed: nat)
      requires |scans| == 3
      requires forall i, j, n | 0 <= i < 3 && 0 <= j < |scans[i]| && 0 <= n < |scans[i][j]| ::
                 Prefix(scans[i][j][n]) == Some(i)
      requires forall k | k in keys && Prefix(k).Some? :: OnSomePage(scans[Prefix(k).value], k)
      modifies this
      ensures keys == Swept(old(keys), user, kept)
      ensures removed == |old(keys)| - |keys|
    {
      removed := 0;
      ghost var was, seen: set<Key> := keys, {};
      assert SweptAmong(was, user, kept, {}) == was;
      for i := 0 to 3
        invariant keys == SweptAmong(was, user, kept, seen) && removed == |was| - |keys|
        invariant forall m | 0 <= m < i :: AllSeen(scans[m], seen)
      {
        hide SweptAmong, Prefix;
        for j := 0 to |scans[i]|
          invariant keys == SweptAmong(was, user, kept, seen) && removed == |was| - |keys|
          invariant forall m | 0 <= m < i :: AllSeen(scans[m], seen)
          invariant AllSeen(scans[i][..j], seen)
        {
          var page := scans[i][j];
          var more := SweepPage(user, kept, page, was, seen);
          removed := removed + more;
          seen := seen + On(page);
        }
        assert scans[i][..|scans[i]|] == scans[i];
      }
      AllKeysSeen(was, user, kept, scans, seen);
    }
  }

  predicate OnSomePage(pages: seq<seq<Key>>, k: Key) {
    exists j :: 0 <= j < |pages| && k in pages[j]
  }

  // ── Tokens ────────────────────────────────────────────────────────

  const SECOND: nat := 1_000_000         // the clock counts microseconds

  datatype Config = Config(accessMinutes: nat, maxHours: nat)

  // A token's claims, the token it was refreshed from and the request that
  // made it. A token is known by its place in the list of all tokens.
  datatype Token = Token(user: nat, authTime: nat, exp: nat, parent: Option<nat>, maker: Option<nat>)

  // create_access_token: whole seconds, as the JWT carries them.
  function Expiry(c: Config, now: nat, started: nat): nat {
    var soon, last := now + c.accessMinutes * 60 * SECOND, (started + c.maxHours * 3600) * SECOND;
    (if soon < last then soon else last) / SECOND
  }

  // get_signed_in_admin, for a token the store still has.
  predicate Accepted(c: Config, now: nat, t: Token) {
    now < t.exp * SECOND && now <= (t.authTime + c.maxHours * 3600) * SECOND
  }

  // ── The state machine ─────────────────────────────────────────────

  datatype Refresh =
    | Checked(parent: nat)               // the old session accepted
    | Stored(parent: nat, child: nat)    // the new one stored
    | Won(parent: nat, child: nat)       // the old one was there to delete
    | Lost(parent: nat, child: nat)      // it was not
    | Answered(parent: nat, child: nat)  // the new token is the browser's
    | Refused(parent: nat, child: nat)   // the new session deleted again

  datatype State = State(
    config: Config,
    now: nat,
    tokens: seq<Token>,                  // every token ever made
    live: set<nat>,                      // those the store has
    held: set<nat>,                      // those some browser has been given
    refreshes: map<nat, Refresh>)

  datatype Step =
    | Login(user: nat)
    | Begin(p: nat, parent: nat)
    | Store(p: nat)
    | Revoke(p: nat)
    | Answer(p: nat)
    | Undo(p: nat)
    | Logout(token: nat)
    | Vanish(token: nat)                 // the key's time is up
    | Sweep(user: nat, kept: Option<nat>)
    | Tick(micros: nat)

  predicate Enabled(s: State, a: Step) {
    match a
    case Begin(p, x) =>
      && p !in s.refreshes && x < |s.tokens| && x in s.held && x in s.live
      && Accepted(s.config, s.now, s.tokens[x]) && s.tokens[x].authTime != 0
    case Store(p) => p in s.refreshes && s.refreshes[p].Checked? && s.refreshes[p].parent < |s.tokens|
    case Revoke(p) => p in s.refreshes && s.refreshes[p].Stored?
    case Answer(p) => p in s.refreshes && s.refreshes[p].Won?
    case Undo(p) => p in s.refreshes && s.refreshes[p].Lost?
    case _ => true
  }

  function Apply(s: State, a: Step): State
    requires Enabled(s, a)
  {
    match a
    case Login(user) =>
      var started, n := s.now / SECOND, |s.tokens|;
      var t := Token(user, started, Expiry(s.config, s.now, started), None, None);
      s.(tokens := s.tokens + [t], live := s.live + {n}, held := s.held + {n})
    case Begin(p, x) => s.(refreshes := s.refreshes[p := Checked(x)])
    case Store(p) =>
      var x, n := s.refreshes[p].parent, |s.tokens|;
      var t := Token(s.tokens[x].user, s.tokens[x].authTime,
                     Expiry(s.config, s.now, s.tokens[x].authTime), Some(x), Some(p));
      s.(tokens := s.tokens + [t], live := s.live + {n}, refreshes := s.refreshes[p := Stored(x, n)])
    case Revoke(p) =>
      var r := s.refreshes[p];
      s.(live := s.live - {r.parent},
         refreshes := s.refreshes[p := if r.parent in s.live then Won(r.parent, r.child) else Lost(r.parent, r.child)])
    case Answer(p) =>
      var r := s.refreshes[p];
      s.(held := s.held + {r.child}, refreshes := s.refreshes[p := Answered(r.parent, r.child)])
    case Undo(p) =>
      var r := s.refreshes[p];
      s.(live := s.live - {r.child}, refreshes := s.refreshes[p := Refused(r.parent, r.child)])
    case Logout(x) => s.(live := s.live - {x})
    case Vanish(x) => s.(live := s.live - {x})
    case Sweep(user, kept) => s.(live := set x | x in s.live && !Ends(s, x, user, kept))
    case Tick(d) => s.(now := s.now + d)
  }

  predicate Ends(s: State, x: nat, user: nat, kept: Option<nat>) {
    x < |s.tokens| && s.tokens[x].user == user && kept != Some(x)
  }

  predicate Run(s: State, steps: seq<Step>)
    decreases |steps|
  {
    steps == [] || (Enabled(s, steps[0]) && Run(Apply(s, steps[0]), steps[1..]))
  }

  function End(s: State, steps: seq<Step>): State
    requires Run(s, steps)
    decreases |steps|
  {
    if steps == [] then s else End(Apply(s, steps[0]), steps[1..])
  }

  function Initial(c: Config, now: nat): State { State(c, now, [], {}, {}, map[]) }

  // The store's session keys are the live tokens, and the script on them is
  // the state machine's sweep.
  ghost predicate Represents(keys: map<Key, nat>, s: State) {
    forall x: nat ::
      && (Session(x) in keys <==> x in s.live)
      && (Session(x) in keys ==> x < |s.tokens| && keys[Session(x)] == s.tokens[x].user)
  }

  lemma SweepIsTheScript(keys: map<Key, nat>, s: State, user: nat, kept: Option<nat>)
    requires Represents(keys, s)
    ensures Represents(Swept(keys, user, kept), Apply(s, Sweep(user, kept)))
    ensures forall n: nat | TotpPending(n) in Swept(keys, user, kept) :: keys[TotpPending(n)] != user
    ensures forall n: nat | TotpSetup(n) in Swept(keys, user, kept) :: keys[TotpSetup(n)] != user
  {
  }

  // So are its other changes what the store's two methods do.
  lemma TheKeysFollow(keys: map<Key, nat>, s: State, a: Step)
    requires Represents(keys, s) && Enabled(s, a) && forall x | x in s.live :: x < |s.tokens|
    ensures var n := Session(|s.tokens|);
            match a
            case Login(user) => Represents(keys[n := user], Apply(s, a))
            case Store(p) => Represents(keys[n := s.tokens[s.refreshes[p].parent].user], Apply(s, a))
            case Revoke(p) =>
              var gone := Session(s.refreshes[p].parent);
              Represents(keys - {gone}, Apply(s, a)) && (Apply(s, a).refreshes[p].Won? <==> gone in keys)
            case Undo(p) => Represents(keys - {Session(s.refreshes[p].child)}, Apply(s, a))
            case Logout(x) => Represents(keys - {Session(x)}, Apply(s, a))
            case _ => true
  {
  }

  // A refresh begins exactly with a token that is given out and still stored, has
  // a login, and is past neither its own end nor its login's.
  lemma BeginsIff(s: State, p: nat, x: nat)
    ensures Enabled(s, Begin(p, x)) <==>
            && p !in s.refreshes && x < |s.tokens| && x in s.held && x in s.live && s.tokens[x].authTime > 0
            && s.now < s.tokens[x].exp * 1_000_000
            && s.now - s.tokens[x].authTime * 1_000_000 <= s.config.maxHours * 3_600_000_000
  {
  }

  // The sweep's prefixes tell the three kinds of key apart.
  lemma PrefixesDiffer(k: Key, j: Key)
    ensures Prefix(k).None? <==> k.Other?
    ensures Prefix(k) == Prefix(j) <==>
            (k.Session? && j.Session?) || (k.TotpPending? && j.TotpPending?) || (k.TotpSetup? && j.TotpSetup?)
            || (k.Other? && j.Other?)
  {
  }

  // ── One request by itself ─────────────────────────────────────────

  // A login makes the newest token, live and given out.
  lemma ALoginAlone(s: State, user: nat)
    ensures var n, started := |s.tokens|, s.now / 1_000_000;
            Apply(s, Login(user)) ==
            s.(tokens := s.tokens + [Token(user, started, Expiry(s.config, s.now, started), None, None)],
               live := s.live + {n}, held := s.held + {n})
  {
  }

  // A refresh that nobody disturbs: the new token is live and given out, of the
  // same user and login, and the old one is not live any more.
  lemma ARefreshAlone(s: State, p: nat, x: nat)
    requires Enabled(s, Begin(p, x))
    ensures var n, was := |s.tokens|, s.tokens[x];
            var t := Token(was.user, was.authTime, Expiry(s.config, s.now, was.authTime), Some(x), Some(p));
            var steps := [Begin(p, x), Store(p), Revoke(p), Answer(p)];
            Run(s, steps) && End(s, steps) ==
              s.(tokens := s.tokens + [t], live := s.live - {x} + {n}, held := s.held + {n},
                 refreshes := s.refreshes[p := Answered(x, n)])
  {
    var s1 := Apply(s, Begin(p, x));
    var s2 := Apply(s1, Store(p));
    Two(s2, Revoke(p), Answer(p), []);
    assert [Revoke(p), Answer(p)] + [] == [Revoke(p), Answer(p)];
    Two(s, Begin(p, x), Store(p), [Revoke(p), Answer(p)]);
    var s4 := Apply(Apply(s2, Revoke(p)), Answer(p));
    assert s4.refreshes == s.refreshes[p := Answered(x, |s.tokens|)];
    assert s4.live == s.live - {x} + {|s.tokens|};
    assert [Begin(p, x), Store(p)] + [Revoke(p), Answer(p)] == [Begin(p, x), Store(p), Revoke(p), Answer(p)];
  }

  // One that finds the old token gone deletes the new one and gives out none.
  lemma ABeatenRefreshAlone(s: State, p: nat, x: nat, n: nat)
    requires p in s.refreshes && s.refreshes[p] == Stored(x, n) && x !in s.live
    ensures var steps := [Revoke(p), Undo(p)];
            Run(s, steps) && End(s, steps) == s.(live := s.live - {n}, refreshes := s.refreshes[p := Refused(x, n)])
  {
    Two(s, Revoke(p), Undo(p), []);
    var s2 := Apply(Apply(s, Revoke(p)), Undo(p));
    assert s2.refreshes == s.refreshes[p := Refused(x, n)] && s2.live == s.live - {n};
    assert [Revoke(p), Undo(p)] + [] == [Revoke(p), Undo(p)];
  }

  lemma Two(s: State, a: Step, b: Step, rest: seq<Step>)
    requires Enabled(s, a) && Enabled(Apply(s, a), b) && Run(Apply(Apply(s, a), b), rest)
    ensures Run(s, [a, b] + rest) && End(s, [a, b] + rest) == End(Apply(Apply(s, a), b), rest)
  {
    hide Enabled, Apply;
    assert ([a, b] + rest)[1..] == [b] + rest && ([b] + rest)[1..] == rest;
    assert Run(Apply(s, a), [b] + rest) && End(Apply(s, a), [b] + rest) == End(Apply(Apply(s, a), b), rest);
  }

  // A session can end at any time by a logout or its key's expiry, and a sweep
  // ends exactly the user's sessions but the one kept.
  lemma EndingsAlone(s: State, x: nat, user: nat, kept: Option<nat>)
    ensures Apply(s, Logout(x)) == Apply(s, Vanish(x)) == s.(live := s.live - {x})
    ensures var t := Apply(s, Sweep(user, kept));
            && t == s.(live := t.live) && t.live <= s.live
            && forall y | y in s.live && y < |s.tokens| :: y in t.live <==> s.tokens[y].user != user || kept == Some(y)
  {
  }

  // ── What every run keeps ──────────────────────────────────────────

  ghost predicate SoundToken(s: State, x: nat)
    requires x < |s.tokens|
  {
    var t := s.tokens[x];
    && t.exp <= t.authTime + s.config.maxHours * 3600
    && (t.parent.Some? <==> t.maker.Some?)
    && (t.parent.Some? ==>
          && t.parent.value < x
          && s.tokens[t.parent.value].user == t.user
          && s.tokens[t.parent.value].authTime == t.authTime
          && t.maker.value in s.refreshes
          && var r := s.refreshes[t.maker.value];
             !r.Checked? && r.child == x && r.parent == t.parent.value)
  }

  ghost predicate SoundRefresh(s: State, p: nat) {
    p in s.refreshes ==>
      var r := s.refreshes[p];
      && r.parent < |s.tokens| && r.parent in s.held
      && (!r.Checked? ==> r.child < |s.tokens| && s.tokens[r.child].maker == Some(p))
      && (!r.Checked? && r.child in s.held ==> r.Answered?)
      && (r.Won? || r.Answered? ==> r.parent !in s.live)
      && (r.Refused? ==> r.child !in s.live)
  }

  // Whoever deletes the old session is the only one who ever does.
  ghost predicate OneWinner(s: State) {
    forall p, q | p in s.refreshes && q in s.refreshes && Winner(s.refreshes[p]) && Winner(s.refreshes[q])
                  && s.refreshes[p].parent == s.refreshes[q].parent :: p == q
  }

  predicate Winner(r: Refresh) { r.Won? || r.Answered? }

  ghost predicate Sound(s: State) {
    && (forall x | x in s.live || x in s.held :: x < |s.tokens|)
    && (forall x: nat | x < |s.tokens| :: SoundToken(s, x))
    && (forall p :: SoundRefresh(s, p))
    && OneWinner(s)
  }

  lemma ExpiryIsBounded(c: Config, now: nat, started: nat)
    ensures Expiry(c, now, started) <= started + c.maxHours * 3600
  {
    var last := (started + c.maxHours * 3600) * SECOND;
    assert last / SECOND == started + c.maxHours * 3600;
  }

  // A token lasts the access minutes, or to the end of its login's hours if that
  // comes first, cut to the second.
  lemma ExpiryIs(c: Config, now: nat, started: nat)
    ensures var soon, last := now + c.accessMinutes * 60_000_000, (started + c.maxHours * 3600) * 1_000_000;
            var exp := Expiry(c, now, started) * 1_000_000;
            exp <= soon && exp <= last && (soon < exp + 1_000_000 || last == exp)
  {
    var last := (started + c.maxHours * 3600) * SECOND;
    assert last / SECOND == started + c.maxHours * 3600;
  }

  lemma StaysSound(s: State, a: Step)
    requires Sound(s) && Enabled(s, a)
    ensures Sound(Apply(s, a))
  {
    var t := Apply(s, a);
    ghost var n := |s.tokens|;
    if a.Login? {
      ExpiryIsBounded(s.config, s.now, s.now / SECOND);
    }
    if a.Store? {
      assert SoundRefresh(s, a.p);
      ExpiryIsBounded(s.config, s.now, s.tokens[s.refreshes[a.p].parent].authTime);
    }
    hide Expiry, Accepted;
    if a.Revoke? || a.Answer? || a.Undo? {
      assert SoundRefresh(s, a.p);
    }
    forall x: nat | x < |t.tokens| ensures SoundToken(t, x) {
      if x < n {
        assert SoundToken(s, x);
      }
    }
    forall p ensures SoundRefresh(t, p) {
      assert SoundRefresh(s, p);
    }
    if a.Revoke? {
      forall q | q in s.refreshes && Winner(s.refreshes[q]) && s.refreshes[q].parent == s.refreshes[a.p].parent
        ensures s.refreshes[a.p].parent !in s.live
      {
        assert SoundRefresh(s, q);
      }
    }
  }

  lemma {:induction false} RunStaysSound(s: State, steps: seq<Step>)
    requires Sound(s) && Run(s, steps)
    ensures Sound(End(s, steps))
    decreases |steps|
  {
    if steps != [] {
      StaysSound(s, steps[0]);
      RunStaysSound(Apply(s, steps[0]), steps[1..]);
    }
  }

  // ── How long a token lasts ────────────────────────────────────────

  // The last step of a run made the newest token, or it was there before.
  lemma {:induction false} RunAppends(s: State, steps: seq<Step>, x: nat) returns (k: nat)
    requires Run(s, steps) && |s.tokens| <= x < |End(s, steps).tokens|
    ensures k < |steps| && Run(s, steps[..k]) && Enabled(End(s, steps[..k]), steps[k])
    ensures var r := End(s, steps[..k]); var made := Apply(r, steps[k]).tokens;
            |r.tokens| == x && |made| == x + 1 && made[x] == End(s, steps).tokens[x]
    decreases |steps|
  {
    var t := Apply(s, steps[0]);
    if x < |t.tokens| {
      k := 0;
      TokensStay(t, steps[1..], x);
      assert steps[..0] == [];
    } else {
      var i := RunAppends(t, steps[1..], x);
      k := i + 1;
      assert steps[..k][0] == steps[0] && steps[..k][1..] == steps[1..][..i];
    }
  }

  lemma {:induction false} TokensStay(s: State, steps: seq<Step>, x: nat)
    requires Run(s, steps) && x < |s.tokens|
    ensures x < |End(s, steps).tokens| && End(s, steps).tokens[x] == s.tokens[x]
    decreases |steps|
  {
    if steps != [] {
      TokensStay(Apply(s, steps[0]), steps[1..], x);
    }
  }

  // In every run a token was made by a login or by a refresh, and lasts from
  // that step as long as the configuration says.
  lemma EveryTokenExpires(c: Config, now: nat, steps: seq<Step>, x: nat) returns (k: nat)
    requires Run(Initial(c, now), steps) && x < |End(Initial(c, now), steps).tokens|
    ensures k < |steps| && (steps[k].Login? || steps[k].Store?) && Run(Initial(c, now), steps[..k])
    ensures var made, t := End(Initial(c, now), steps[..k]).now, End(Initial(c, now), steps).tokens[x];
            var soon, last := made + c.accessMinutes * 60_000_000, (t.authTime + c.maxHours * 3600) * 1_000_000;
            && t.exp * 1_000_000 <= soon && t.exp * 1_000_000 <= last
            && (soon < t.exp * 1_000_000 + 1_000_000 || last == t.exp * 1_000_000)
            && (steps[k].Login? ==> t.authTime == made / 1_000_000 && t.user == steps[k].user && t.parent.None?)
  {
    k := RunAppends(Initial(c, now), steps, x);
    var r := End(Initial(c, now), steps[..k]);
    ConfigStays(Initial(c, now), steps[..k]);
    ExpiryIs(c, r.now, Apply(r, steps[k]).tokens[x].authTime);
    hide Run, End, Expiry;
  }

  // ── One successor ─────────────────────────────────────────────────

  predicate InFlight(s: State, p: nat) {
    p in s.refreshes && !s.refreshes[p].Answered? && !s.refreshes[p].Refused?
  }

  // Is the refresh that made this token still in flight?
  predicate StillMaking(s: State, x: nat)
    requires x < |s.tokens|
  {
    s.tokens[x].maker.Some? && InFlight(s, s.tokens[x].maker.value)
  }

  // However many refreshes of one token run at once, at most one of their
  // tokens is ever given out, and at most one stays live once they are done.
  lemma OneSuccessor(c: Config, now: nat, steps: seq<Step>, x: nat, y: nat)
    requires Run(Initial(c, now), steps)
    requires var s := End(Initial(c, now), steps);
             && x < |s.tokens| && y < |s.tokens| && x != y
             && s.tokens[x].parent.Some? && s.tokens[x].parent == s.tokens[y].parent
    ensures var s := End(Initial(c, now), steps); !(x in s.held && y in s.held)
    ensures var s := End(Initial(c, now), steps);
            x in s.live && y in s.live ==> StillMaking(s, x) || StillMaking(s, y)
    ensures var s := End(Initial(c, now), steps);
            x in s.live && y in s.live ==>
              exists p | p in s.refreshes && (s.tokens[x].maker == Some(p) || s.tokens[y].maker == Some(p)) ::
                s.refreshes[p].Stored? || s.refreshes[p].Won? || s.refreshes[p].Lost?
    ensures var s := End(Initial(c, now), steps);
            x in s.held || y in s.held ==> s.tokens[x].parent.value !in s.live
  {
    RunStaysSound(Initial(c, now), steps);
    var s := End(Initial(c, now), steps);
    hide Run, End;
    assert SoundToken(s, x) && SoundToken(s, y);
    assert SoundRefresh(s, s.tokens[x].maker.value) && SoundRefresh(s, s.tokens[y].maker.value);
  }

  // ── The absolute limit ────────────────────────────────────────────

  function Root(s: State, x: nat): (login: nat)
    requires x < |s.tokens|
    ensures login <= x
    decreases x
  {
    var parent := s.tokens[x].parent;
    if parent.Some? && parent.value < x then Root(s, parent.value) else x
  }

  lemma {:induction false} ChainKeepsItsStart(s: State, x: nat)
    requires Sound(s) && x < |s.tokens|
    ensures s.tokens[Root(s, x)].parent.None?
    ensures s.tokens[Root(s, x)].authTime == s.tokens[x].authTime && s.tokens[Root(s, x)].user == s.tokens[x].user
    decreases x
  {
    assert SoundToken(s, x);
    if s.tokens[x].parent.Some? {
      ChainKeepsItsStart(s, s.tokens[x].parent.value);
    }
  }

  // However often a session is refreshed, it ends SESSION_MAX_HOURS after the
  // login it came from, and stays that user's.
  lemma NoRefreshOutlivesItsLogin(c: Config, now: nat, steps: seq<Step>, x: nat)
    requires Run(Initial(c, now), steps) && x < |End(Initial(c, now), steps).tokens|
    ensures var s := End(Initial(c, now), steps); var login := s.tokens[Root(s, x)];
            && login.parent.None? && login.user == s.tokens[x].user
            && s.tokens[x].exp <= login.authTime + c.maxHours * 3600
            && (Accepted(c, s.now, s.tokens[x]) ==> s.now < (login.authTime + c.maxHours * 3600) * SECOND)
  {
    RunStaysSound(Initial(c, now), steps);
    ConfigStays(Initial(c, now), steps);
    var s := End(Initial(c, now), steps);
    ChainKeepsItsStart(s, x);
    assert SoundToken(s, x);
  }

  lemma {:induction false} ConfigStays(s: State, steps: seq<Step>)
    requires Run(s, steps)
    ensures End(s, steps).config == s.config
    decreases |steps|
  {
    if steps != [] {
      ConfigStays(Apply(s, steps[0]), steps[1..]);
    }
  }

  // ── Refresh against the sweep ─────────────────────────────────────

  // A sweep of this user, keeping one token, when there were `before` tokens:
  // it dooms each of the user's tokens but the kept one, and whatever is
  // refreshed from a doomed one.
  datatype Swoop = Swoop(user: nat, kept: Option<nat>, before: nat)

  predicate Doomed(tokens: seq<Token>, w: Swoop, x: nat)
    requires x < |tokens|
    decreases x
  {
    && w.kept != Some(x)
    && if x < w.before then tokens[x].user == w.user
       else tokens[x].parent.Some? && tokens[x].parent.value < x && Doomed(tokens, w, tokens[x].parent.value)
  }

  lemma {:induction false} DoomStays(tokens: seq<Token>, more: seq<Token>, w: Swoop, x: nat)
    requires x < |tokens|
    ensures Doomed(tokens + more, w, x) == Doomed(tokens, w, x)
    decreases x
  {
    var parent := tokens[x].parent;
    if w.before <= x && parent.Some? && parent.value < x {
      DoomStays(tokens, more, w, parent.value);
    }
  }

  // A doomed token that is live is nobody's yet: the refresh that made it has
  // still to find its parent gone.
  ghost predicate Harmless(s: State, w: Swoop, x: nat) {
    x in s.live && x < |s.tokens| && Doomed(s.tokens, w, x) ==>
      && w.before <= x && x !in s.held && s.tokens[x].maker.Some?
      && var p := s.tokens[x].maker.value;
         p in s.refreshes && (s.refreshes[p].Stored? || s.refreshes[p].Lost?)
  }

  ghost predicate FindsParentGone(s: State, w: Swoop, p: nat) {
    p in s.refreshes && s.refreshes[p].parent < |s.tokens| && Doomed(s.tokens, w, s.refreshes[p].parent) ==>
      s.refreshes[p].parent !in s.live
  }

  ghost predicate Contained(s: State, w: Swoop) {
    && w.before <= |s.tokens|
    && (forall x :: Harmless(s, w, x))
    && (forall p :: FindsParentGone(s, w, p))
  }

  lemma SweepContains(s: State, user: nat, kept: Option<nat>)
    requires Sound(s)
    ensures Contained(Apply(s, Sweep(user, kept)), Swoop(user, kept, |s.tokens|))
  {
    var t := Apply(s, Sweep(user, kept));
    forall p ensures FindsParentGone(t, Swoop(user, kept, |s.tokens|), p) {
      assert SoundRefresh(s, p);
    }
  }

  lemma DoomIsLasting(s: State, a: Step, w: Swoop, x: nat)
    requires Enabled(s, a) && x < |s.tokens|
    ensures Doomed(Apply(s, a).tokens, w, x) == Doomed(s.tokens, w, x)
  {
    var t := Apply(s, a);
    var more := t.tokens[|s.tokens|..];
    DoomStays(s.tokens, more, w, x);
    assert s.tokens + more == t.tokens;
  }

  lemma StaysHarmless(s: State, a: Step, w: Swoop, x: nat)
    requires Sound(s) && Enabled(s, a) && Contained(s, w)
    ensures Harmless(Apply(s, a), w, x)
  {
    hide Expiry, Accepted;
    assert Harmless(s, w, x);
    if x < |s.tokens| {
      DoomIsLasting(s, a, w, x);
      assert SoundToken(s, x);
      if a.Revoke? || a.Answer? || a.Undo? {
        assert SoundRefresh(s, a.p) && FindsParentGone(s, w, a.p);
      }
    } else if a.Store? {
      var parent := s.refreshes[a.p].parent;
      DoomIsLasting(s, a, w, parent);
    }
  }

  lemma StaysGone(s: State, a: Step, w: Swoop, p: nat)
    requires Sound(s) && Enabled(s, a) && Contained(s, w)
    ensures FindsParentGone(Apply(s, a), w, p)
  {
    hide Expiry, Accepted;
    assert SoundRefresh(s, p) && FindsParentGone(s, w, p);
    if a.Begin? && a.p == p {
      DoomIsLasting(s, a, w, a.parent);
      assert Harmless(s, w, a.parent);
    } else if p in s.refreshes {
      DoomIsLasting(s, a, w, s.refreshes[p].parent);
    }
  }

  lemma StaysContained(s: State, a: Step, w: Swoop)
    requires Sound(s) && Enabled(s, a) && Contained(s, w)
    ensures Contained(Apply(s, a), w)
  {
    forall x ensures Harmless(Apply(s, a), w, x) {
      StaysHarmless(s, a, w, x);
    }
    forall p ensures FindsParentGone(Apply(s, a), w, p) {
      StaysGone(s, a, w, p);
    }
    hide Harmless, FindsParentGone;
  }

  lemma {:induction false} RunStaysContained(s: State, steps: seq<Step>, w: Swoop)
    requires Sound(s) && Run(s, steps) && Contained(s, w)
    ensures Contained(End(s, steps), w)
    decreases |steps|
  {
    if steps != [] {
      StaysContained(s, steps[0], w);
      StaysSound(s, steps[0]);
      RunStaysContained(Apply(s, steps[0]), steps[1..], w);
    }
  }

  // In every run with a sweep in it: no browser holds a live session that the
  // sweep ended or that was refreshed from one; and once no refresh is in
  // flight, no such session is live at all.
  lemma NothingSweptComesBack(
    c: Config, now: nat, before: seq<Step>, user: nat, kept: Option<nat>, after: seq<Step>, x: nat)
    requires Run(Initial(c, now), before)
    requires Run(Apply(End(Initial(c, now), before), Sweep(user, kept)), after)
    requires var s := End(Initial(c, now), before);
             var t := End(Apply(s, Sweep(user, kept)), after);
             x < |t.tokens| && Doomed(t.tokens, Swoop(user, kept, |s.tokens|), x)
    ensures var t := End(Apply(End(Initial(c, now), before), Sweep(user, kept)), after);
            && !(x in t.live && x in t.held)
            && ((forall p :: !InFlight(t, p)) ==> x !in t.live)
  {
    var s := End(Initial(c, now), before);
    var w := Swoop(user, kept, |s.tokens|);
    RunStaysSound(Initial(c, now), before);
    SweepContains(s, user, kept);
    var s1 := Apply(s, Sweep(user, kept));
    StaysSound(s, Sweep(user, kept));
    RunStaysContained(s1, after, w);
    var t := End(s1, after);
    hide Run, End, Doomed;
    assert Harmless(t, w, x);
    if x in t.live {
      assert InFlight(t, t.tokens[x].maker.value);
    }
  }
}
