/**
 * Admin accounts (app/api/admin.py): who made whom, which the four-eyes
 * deletion asks, and the changes one account makes to another.
 */
module Accounts {
  import opened Options
  import Facts

  datatype Role = CaseManager | Admin | Superadmin

  datatype Account = Account(
    role: Role,
    active: bool,
    enrolled: bool,                      // totp_enabled
    mustChange: bool,                    // must_change_password
    hasPassword: bool,
    org: Option<nat>,
    maker: Option<nat>,                  // created_by_id
    demo: bool)                          // one of the demo accounts

  type Table = map<nat, Account>

  // ── Makers ────────────────────────────────────────────────────────

  function MakerOf(t: Table, a: nat): Option<nat> { if a in t then t[a].maker else None }

  // The maker n links up.
  function Up(t: Table, a: Option<nat>, n: nat): Option<nat>
    decreases n
  {
    if n == 0 || a.None? then a else Up(t, MakerOf(t, a.value), n - 1)
  }

  ghost predicate Reaches(t: Table, a: nat, b: nat) { exists n: nat :: Up(t, Some(a), n) == Some(b) }

  lemma {:induction false} UpOneMore(t: Table, a: Option<nat>, n: nat)
    ensures Up(t, a, n + 1) == (var b := Up(t, a, n); if b.None? then None else MakerOf(t, b.value))
    decreases n
  {
    if n > 0 && a.Some? {
      UpOneMore(t, MakerOf(t, a.value), n - 1);
    }
  }

  // A set that holds its members' makers holds whatever its members reach.
  lemma {:induction false} ClosedUnderMakers(t: Table, seen: set<nat>, a: Option<nat>, n: nat)
    requires forall x | x in seen :: MakerIsNext(t, seen, None, x)
    requires a.Some? ==> a.value in seen
    ensures Up(t, a, n).Some? ==> Up(t, a, n).value in seen
    decreases n
  {
    if n > 0 && a.Some? {
      assert MakerIsNext(t, seen, None, a.value);
      ClosedUnderMakers(t, seen, MakerOf(t, a.value), n - 1);
    }
  }

  // Every account there is, or is said to have made another.
  function Everyone(t: Table, start: nat): set<nat> {
    t.Keys + {start} + set a | a in t && t[a].maker.Some? :: t[a].maker.value
  }

  ghost predicate MakerIsNext(t: Table, seen: set<nat>, current: Option<nat>, x: nat) {
    MakerOf(t, x).Some? ==> MakerOf(t, x).value in seen || current == MakerOf(t, x)
  }

  // What the walk has seen after so many links, and where it stands.
  ghost predicate Walked(t: Table, start: nat, seen: set<nat>, current: Option<nat>, steps: nat) {
    && current == Up(t, Some(start), steps)
    && (start in seen || current == Some(start))
    && (forall x | x in seen :: Reaches(t, start, x))
    && (forall x | x in seen :: MakerIsNext(t, seen, current, x))
    && seen <= Everyone(t, start) && (current.Some? ==> current.value in Everyone(t, start))
  }

  lemma OneLinkMore(t: Table, start: nat, seen: set<nat>, x: nat, steps: nat)
    requires Walked(t, start, seen, Some(x), steps)
    ensures Walked(t, start, seen + {x}, MakerOf(t, x), steps + 1)
  {
    var more, next := seen + {x}, MakerOf(t, x);
    UpOneMore(t, Some(start), steps);
    forall y | y in more ensures Reaches(t, start, y) && MakerIsNext(t, more, next, y) {
      if y in seen {
        assert MakerIsNext(t, seen, Some(x), y);
      } else {
        assert Up(t, Some(start), steps) == Some(y);
      }
    }
    EveryoneIsThere(t, start, x);
    hide Everyone, Reaches, MakerIsNext, Up, MakerOf;
    assert more <= Everyone(t, start);
  }

  ghost function Unseen(t: Table, start: nat, seen: set<nat>): nat { |Everyone(t, start) - seen| }

  lemma LinkShrinks(t: Table, start: nat, seen: set<nat>, x: nat, steps: nat)
    requires Walked(t, start, seen, Some(x), steps) && x !in seen
    ensures Unseen(t, start, seen + {x}) < Unseen(t, start, seen)
  {
    Shrinks(Everyone(t, start), seen, x);
  }

  lemma Shrinks(all: set<nat>, seen: set<nat>, x: nat)
    requires x in all
    ensures x !in seen ==> |all - (seen + {x})| < |all - seen|
  {
    if x !in seen {
      assert all - (seen + {x}) == (all - seen) - {x};
    }
  }

  lemma EveryoneIsThere(t: Table, start: nat, x: nat)
    ensures start in Everyone(t, start)
    ensures MakerOf(t, x).Some? ==> MakerOf(t, x).value in Everyone(t, start)
  {
    if MakerOf(t, x).Some? {
      assert t[x].maker.value in set a | a in t && t[a].maker.Some? :: t[a].maker.value;
    }
  }

  lemma WalkIsOver(t: Table, start: nat, seen: set<nat>, current: Option<nat>, steps: nat)
    requires Walked(t, start, seen, current, steps) && (current.None? || current.value in seen)
    ensures forall x :: x in seen <==> Reaches(t, start, x)
  {
    forall x | Reaches(t, start, x) ensures x in seen {
      var n: nat :| Up(t, Some(start), n) == Some(x);
      forall y | y in seen ensures MakerIsNext(t, seen, None, y) {
        assert MakerIsNext(t, seen, current, y);
      }
      ClosedUnderMakers(t, seen, Some(start), n);
    }
  }

  // makers(start): it ends on every table, with a cycle in it or not.
  method Makers(t: Table, start: nat) returns (seen: set<nat>)
    ensures forall x :: x in seen <==> Reaches(t, start, x)
  {
    seen := {};
    var current := Some(start);
    ghost var steps := 0;
    while current.Some? && current.value !in seen
      invariant Walked(t, start, seen, current, steps)
      decreases Unseen(t, start, seen)
    {
      OneLinkMore(t, start, seen, current.value, steps);
      LinkShrinks(t, start, seen, current.value, steps);
      hide *;
      seen := seen + {current.value};
      current := MakerOf(t, current.value);
      steps := steps + 1;
    }
    WalkIsOver(t, start, seen, current, steps);
  }

  ghost predicate Related(t: Table, a: nat, b: nat) { Reaches(t, a, b) || Reaches(t, b, a) }

  method OneMadeTheOther(t: Table, a: Option<nat>, b: nat) returns (related: bool)
    ensures related <==> a.Some? && Related(t, a.value, b)
  {
    if a == None {
      return false;
    }
    var above := Makers(t, b);
    if a.value in above {
      return true;
    }
    above := Makers(t, a.value);
    related := b in above;
  }

  lemma ReachesItself(t: Table, a: nat)
    ensures Reaches(t, a, a)
  {
    assert Up(t, Some(a), 0) == Some(a);
  }

  datatype Confirmation = NothingRequested | SamePairOfEyes | Confirmed

  // confirm_delete's own checks: the request, if there is one, names who made
  // it, unless that account is gone.
  method ConfirmDelete(t: Table, request: Option<Option<nat>>, confirmer: nat) returns (c: Confirmation)
    ensures c.NothingRequested? <==> request.None?
    ensures c.Confirmed? <==> request.Some? && (request.value.Some? ==> !Related(t, request.value.value, confirmer))
    ensures c.Confirmed? ==> request.value != Some(confirmer)
  {
    if request == None {
      return NothingRequested;
    }
    if request.value == Some(confirmer) {
      ReachesItself(t, confirmer);
      return SamePairOfEyes;
    }
    ReachesItself(t, confirmer);
    var related := OneMadeTheOther(t, request.value, confirmer);
    c := if related then SamePairOfEyes else Confirmed;
  }

  lemma {:induction false} UpAdds(t: Table, a: nat, m: nat, b: nat, n: nat)
    requires Up(t, Some(a), m) == Some(b)
    ensures Up(t, Some(a), m + n) == Up(t, Some(b), n)
    decreases n
  {
    if n > 0 {
      UpAdds(t, a, m, b, n - 1);
      UpOneMore(t, Some(a), m + n - 1);
      UpOneMore(t, Some(b), n - 1);
    }
  }

  // A maker's makers are makers too.
  lemma ReachesThrough(t: Table, a: nat, b: nat, c: nat)
    requires Reaches(t, a, b) && Reaches(t, b, c)
    ensures Reaches(t, a, c)
  {
    var m: nat :| Up(t, Some(a), m) == Some(b);
    var n: nat :| Up(t, Some(b), n) == Some(c);
    UpAdds(t, a, m, b, n);
    assert Up(t, Some(a), m + n) == Some(c);
  }

  // Two accounts of one maker, which nobody made, are two pairs of eyes.
  lemma SiblingsAreNot(t: Table, maker: nat, a: nat, b: nat)
    requires a != b && maker != a && maker != b && MakerOf(t, maker).None?
    requires MakerOf(t, a) == Some(maker) && MakerOf(t, b) == Some(maker)
    ensures !Related(t, a, b)
  {
    OnlyItsMaker(t, a, maker);
    OnlyItsMaker(t, b, maker);
  }

  lemma OnlyItsMaker(t: Table, a: nat, maker: nat)
    requires MakerOf(t, maker).None? && MakerOf(t, a) == Some(maker)
    ensures forall x | Reaches(t, a, x) :: x == a || x == maker
  {
    forall x | Reaches(t, a, x) ensures x == a || x == maker {
      var n: nat :| Up(t, Some(a), n) == Some(x);
      ClosedUnderMakers(t, {a, maker}, Some(a), n);
    }
  }

  // ── One account changes another ───────────────────────────────────

  datatype Config = Config(multiTenancy: bool, demoMode: bool, defaultOrg: Option<nat>, activeOrgs: set<nat>)

  datatype Outcome = Fine | NotFound | Forbidden | BadRequest | Unprocessable

  datatype Op =
    | Create(id: nat, role: Role, chosen: Option<nat>)
    | ChangeRole(target: nat, role: Role)
    | Deactivate(target: nat)
    | Reactivate(target: nat)
    | ResetTotp(target: nat)
    | Enrol                              // the actor's own authenticator
    | ChangePassword                     // the actor's own password

  predicate Privileged(a: Account) { a.role.Admin? || a.role.Superadmin? }

  // get_current_admin and require_admin, or require_superadmin.
  predicate MayAct(t: Table, actor: nat, op: Op) {
    && actor in t && t[actor].active
    && match op
       case Enrol => true
       case ChangePassword => t[actor].enrolled
       case ResetTotp(_) => t[actor].enrolled && !t[actor].mustChange && t[actor].role.Superadmin?
       case Create(id, _, _) => t[actor].enrolled && !t[actor].mustChange && Privileged(t[actor]) && id !in t
       case _ => t[actor].enrolled && !t[actor].mustChange && Privileged(t[actor])
  }

  function ActivePrivileged(t: Table): set<nat> { set a | a in t && t[a].active && Privileged(t[a]) }

  // count_active_privileged_admins
  lemma CountsWho(t: Table, x: nat)
    ensures x in ActivePrivileged(t) <==> x in t && t[x].active && t[x].role != CaseManager
  {
  }

  // _require_same_org and _require_may_manage.
  function MayManage(c: Config, actor: Account, target: Account): Outcome {
    if c.multiTenancy && !actor.role.Superadmin? && target.org != actor.org then NotFound
    else if target.role.Superadmin? && !actor.role.Superadmin? then Forbidden
    else if c.demoMode && target.demo then Forbidden
    else Fine
  }

  // _new_account_org, before the organisation is looked up.
  function NewOrg(c: Config, me: Account, chosen: Option<nat>): Option<nat> {
    if chosen.Some? && c.multiTenancy && me.role.Superadmin? then chosen
    else if me.org.Some? then me.org
    else c.defaultOrg
  }

  function Verdict(c: Config, t: Table, actor: nat, op: Op): Outcome
    requires MayAct(t, actor, op)
  {
    var me := t[actor];
    match op
    case Create(_, role, chosen) =>
      var org := NewOrg(c, me, chosen);
      if role.Superadmin? && !me.role.Superadmin? then Forbidden
      else if org.None? || org.value !in c.activeOrgs then Unprocessable
      else Fine
    case ChangeRole(x, role) =>
      if x !in t then NotFound
      else if MayManage(c, me, t[x]) != Fine then MayManage(c, me, t[x])
      else if x == actor then Forbidden
      else if role.Superadmin? && !me.role.Superadmin? then Forbidden
      else if Privileged(t[x]) && role.CaseManager? && t[x].active && |ActivePrivileged(t)| <= 1 then Unprocessable
      else Fine
    case Deactivate(x) =>
      if x !in t then NotFound
      else if x == actor then BadRequest
      else if MayManage(c, me, t[x]) != Fine then MayManage(c, me, t[x])
      else if Privileged(t[x]) && t[x].active && |ActivePrivileged(t)| <= 1 then Unprocessable
      else Fine
    case Reactivate(x) => if x !in t then NotFound else MayManage(c, me, t[x])
    case ResetTotp(x) =>
      if x !in t then NotFound
      else if c.multiTenancy && !me.role.Superadmin? && t[x].org != me.org then NotFound
      else if x == actor then BadRequest
      else if c.demoMode && t[x].demo then Forbidden
      else Fine
    case _ => Fine
  }

  // Everyone may enrol; with an authenticator, change the own password; after
  // that, administrators the accounts, and superadmins other's authenticators.
  lemma MayActIff(t: Table, actor: nat, op: Op)
    ensures MayAct(t, actor, op) <==>
            && actor in t && t[actor].active
            && (!op.Enrol? ==> t[actor].enrolled)
            && (!op.Enrol? && !op.ChangePassword? ==> !t[actor].mustChange && t[actor].role != CaseManager)
            && (op.ResetTotp? ==> t[actor].role == Superadmin)
            && (op.Create? ==> op.id !in t)
  {
  }

  // Whom an account may manage: its own organisation's, superadmins only as one,
  // and no demo account in the demo.
  predicate InReach(c: Config, me: Account, other: Account) {
    && (c.multiTenancy ==> me.role == Superadmin || other.org == me.org)
    && (other.role == Superadmin ==> me.role == Superadmin)
    && !(c.demoMode && other.demo)
  }

  // A request goes through exactly if it is about another account in reach and
  // makes nobody more than its actor; the count of administrators plays no part.
  lemma FineIff(c: Config, t: Table, actor: nat, op: Op)
    requires MayAct(t, actor, op)
    ensures Verdict(c, t, actor, op) == Fine <==>
            match op
            case Create(_, role, chosen) =>
              var org := NewOrg(c, t[actor], chosen);
              (role == Superadmin ==> t[actor].role == Superadmin) && org.Some? && org.value in c.activeOrgs
            case ChangeRole(x, role) =>
              x in t && x != actor && InReach(c, t[actor], t[x]) && (role == Superadmin ==> t[actor].role == Superadmin)
            case Deactivate(x) => x in t && x != actor && InReach(c, t[actor], t[x])
            case Reactivate(x) => x in t && InReach(c, t[actor], t[x])
            case ResetTotp(x) => x in t && x != actor && !(c.demoMode && t[x].demo)
            case _ => true
    ensures Verdict(c, t, actor, op) == NotFound <==>
            && !op.Create? && !op.Enrol? && !op.ChangePassword?
            && (op.target in t ==> c.multiTenancy && t[actor].role != Superadmin && t[op.target].org != t[actor].org
                                   && !(op.Deactivate? && op.target == actor))
    ensures Verdict(c, t, actor, op) == BadRequest <==> (op.Deactivate? || op.ResetTotp?) && op.target == actor && op.target in t
    ensures Verdict(c, t, actor, op) == Unprocessable <==>
            op.Create? && (op.role == Superadmin ==> t[actor].role == Superadmin)
            && var org := NewOrg(c, t[actor], op.chosen); org.None? || org.value !in c.activeOrgs
  {
    if !op.Create? {
      TheCountNeverRefuses(c, t, actor, op);
    }
  }

  // A new account is in the organisation a superadmin chose where there are
  // several, else in its maker's, else in the default one.
  lemma NewOrgIs(c: Config, me: Account, chosen: Option<nat>)
    ensures var free := c.multiTenancy && me.role == Superadmin && chosen.Some?;
            && (free ==> NewOrg(c, me, chosen) == chosen)
            && (!free && me.org.Some? ==> NewOrg(c, me, chosen) == me.org)
            && (!free && me.org.None? ==> NewOrg(c, me, chosen) == c.defaultOrg)
  {
  }

  function Changed(c: Config, t: Table, actor: nat, op: Op): Table
    requires actor in t
  {
    match op
    case Create(id, role, chosen) =>
      t[id := Account(role, true, false, true, true, NewOrg(c, t[actor], chosen), Some(actor), false)]
    case Enrol => t[actor := t[actor].(enrolled := true)]
    case ChangePassword => t[actor := t[actor].(mustChange := false)]
    case _ =>
      if op.target !in t then t
      else
        var x := t[op.target];
        t[op.target :=
            match op
            case ChangeRole(_, role) => x.(role := role)
            case Deactivate(_) => x.(active := false)
            case Reactivate(_) => x.(active := true)
            case _ =>
              if x.hasPassword then x.(enrolled := false, mustChange := true, maker := Some(actor))
              else x.(enrolled := false)]
  }

  function Do(c: Config, t: Table, actor: nat, op: Op): Table
    requires MayAct(t, actor, op)
  {
    if Verdict(c, t, actor, op) == Fine then Changed(c, t, actor, op) else t
  }

  // Someone can run the instance.
  ghost predicate Governed(t: Table) { exists a :: a in t && t[a].role.Superadmin? && t[a].active }

  // Someone can who has an authenticator, too.
  ghost predicate GovernedNow(t: Table) { exists a :: a in t && t[a].role.Superadmin? && t[a].active && t[a].enrolled }

  lemma OthersStay(c: Config, t: Table, actor: nat, op: Op, x: nat)
    requires MayAct(t, actor, op) && x in t
    requires op.ChangeRole? || op.Deactivate? || op.Reactivate? || op.ResetTotp? ==> op.target != x
    ensures x in Do(c, t, actor, op)
    ensures var y := Do(c, t, actor, op)[x];
            y.role == t[x].role && y.active == t[x].active && (t[x].enrolled ==> y.enrolled) && y.maker == t[x].maker
  {
  }

  // Only a superadmin makes, unmakes, stops or resets one.
  lemma OnlySuperadminsTouchSuperadmins(c: Config, t: Table, actor: nat, op: Op, x: nat)
    requires MayAct(t, actor, op) && !t[actor].role.Superadmin?
    ensures x in t && t[x].role.Superadmin? ==> x in Do(c, t, actor, op) && Do(c, t, actor, op)[x] == t[x]
    ensures x in Do(c, t, actor, op) && Do(c, t, actor, op)[x].role.Superadmin? ==> x in t && t[x].role.Superadmin?
  {
  }

  // With several organisations, nobody else reaches outside their own.
  lemma OwnOrganisationOnly(c: Config, t: Table, actor: nat, op: Op, x: nat)
    requires MayAct(t, actor, op) && c.multiTenancy && !t[actor].role.Superadmin? && t[actor].org.Some?
    requires x in Do(c, t, actor, op) && (x !in t || Do(c, t, actor, op)[x] != t[x])
    ensures Do(c, t, actor, op)[x].org == t[actor].org
    ensures x in t ==> t[x].org == t[actor].org
  {
  }

  // In the demo nobody changes a demo account but its holder.
  lemma DemoAccountsStay(c: Config, t: Table, actor: nat, op: Op, x: nat)
    requires MayAct(t, actor, op) && c.demoMode && x in t && t[x].demo && x != actor
    ensures x in Do(c, t, actor, op) && Do(c, t, actor, op)[x] == t[x]
  {
  }

  // A superadmin who changes another account is still one afterwards.
  lemma StaysGoverned(c: Config, t: Table, actor: nat, op: Op)
    requires MayAct(t, actor, op)
    ensures Governed(t) ==> Governed(Do(c, t, actor, op))
    ensures GovernedNow(t) ==> GovernedNow(Do(c, t, actor, op))
  {
    var after := Do(c, t, actor, op);
    if t[actor].role.Superadmin? {
      if op.ChangeRole? || op.Deactivate? || op.Reactivate? || op.ResetTotp? {
        assert after[actor].role.Superadmin? && after[actor].active && after[actor].enrolled;
      } else {
        forall x | x in t ensures x in after && after[x].role == t[x].role && after[x].active == t[x].active
                                  && (t[x].enrolled ==> after[x].enrolled) {
          OthersStay(c, t, actor, op, x);
        }
      }
    } else {
      forall x | x in t && t[x].role.Superadmin? ensures x in after && after[x] == t[x] {
        OnlySuperadminsTouchSuperadmins(c, t, actor, op, x);
      }
    }
  }

  predicate Run(c: Config, t: Table, ops: seq<(nat, Op)>)
    decreases |ops|
  {
    ops == [] || (MayAct(t, ops[0].0, ops[0].1) && Run(c, Do(c, t, ops[0].0, ops[0].1), ops[1..]))
  }

  function End(c: Config, t: Table, ops: seq<(nat, Op)>): Table
    requires Run(c, t, ops)
    decreases |ops|
  {
    if ops == [] then t else End(c, Do(c, t, ops[0].0, ops[0].1), ops[1..])
  }

  // In every run of requests that take effect one at a time, an active
  // superadmin remains, and one with an authenticator if there was one.
  lemma {:induction false} AlwaysGoverned(c: Config, t: Table, ops: seq<(nat, Op)>)
    requires Run(c, t, ops)
    ensures Governed(t) ==> Governed(End(c, t, ops))
    ensures GovernedNow(t) ==> GovernedNow(End(c, t, ops))
    decreases |ops|
  {
    if ops != [] {
      StaysGoverned(c, t, ops[0].0, ops[0].1);
      AlwaysGoverned(c, Do(c, t, ops[0].0, ops[0].1), ops[1..]);
    }
  }

  /** The table as the handlers change it. */
  class Directory {
    var accounts: Table
    const config: Config

    constructor (c: Config, t: Table)
      ensures config == c && accounts == t
    {
      config, accounts := c, t;
    }

    // _require_may_manage
    method MayManageTarget(actor: nat, target: nat) returns (outcome: Outcome)
      requires actor in accounts && target in accounts
      ensures outcome == MayManage(config, accounts[actor], accounts[target])
      ensures outcome.Fine? && accounts[target].role.Superadmin? ==> accounts[actor].role.Superadmin?
    {
      var me, them := accounts[actor], accounts[target];
      if config.multiTenancy && me.role != Superadmin && them.org != me.org {
        return NotFound;
      }
      if them.role == Superadmin && me.role != Superadmin {
        return Forbidden;
      }
      if config.demoMode && them.demo {
        return Forbidden;
      }
      return Fine;
    }

    method ChangeUserRole(actor: nat, target: nat, role: Role) returns (outcome: Outcome)
      requires MayAct(accounts, actor, ChangeRole(target, role))
      modifies this
      ensures outcome == Verdict(config, old(accounts), actor, ChangeRole(target, role))
      ensures accounts == Do(config, old(accounts), actor, ChangeRole(target, role))
      ensures old(Governed(accounts)) ==> Governed(accounts)
      ensures old(GovernedNow(accounts)) ==> GovernedNow(accounts)
    {
      StaysGoverned(config, accounts, actor, ChangeRole(target, role));
      hide Governed, GovernedNow;
      if target !in accounts {
        return NotFound;
      }
      outcome := MayManageTarget(actor, target);
      if outcome != Fine {
        return;
      }
      if target == actor {
        return Forbidden;
      }
      if role == Superadmin && accounts[actor].role != Superadmin {
        return Forbidden;
      }
      if Privileged(accounts[target]) && role == CaseManager && accounts[target].active
         && |ActivePrivileged(accounts)| <= 1 {
        return Unprocessable;
      }
      accounts := accounts[target := accounts[target].(role := role)];
    }

    method DeactivateUser(actor: nat, target: nat) returns (outcome: Outcome)
      requires MayAct(accounts, actor, Deactivate(target))
      modifies this
      ensures outcome == Verdict(config, old(accounts), actor, Deactivate(target))
      ensures accounts == Do(config, old(accounts), actor, Deactivate(target))
      ensures old(Governed(accounts)) ==> Governed(accounts)
      ensures old(GovernedNow(accounts)) ==> GovernedNow(accounts)
    {
      StaysGoverned(config, accounts, actor, Deactivate(target));
      hide Governed, GovernedNow;
      if target !in accounts {
        return NotFound;
      }
      if target == actor {
        return BadRequest;
      }
      outcome := MayManageTarget(actor, target);
      if outcome != Fine {
        return;
      }
      if Privileged(accounts[target]) && accounts[target].active && |ActivePrivileged(accounts)| <= 1 {
        return Unprocessable;
      }
      accounts := accounts[target := accounts[target].(active := false)];
    }

    method ReactivateUser(actor: nat, target: nat) returns (outcome: Outcome)
      requires MayAct(accounts, actor, Reactivate(target))
      modifies this
      ensures outcome == Verdict(config, old(accounts), actor, Reactivate(target))
      ensures accounts == Do(config, old(accounts), actor, Reactivate(target))
      ensures old(Governed(accounts)) ==> Governed(accounts)
      ensures old(GovernedNow(accounts)) ==> GovernedNow(accounts)
    {
      StaysGoverned(config, accounts, actor, Reactivate(target));
      hide Governed, GovernedNow;
      if target !in accounts {
        return NotFound;
      }
      outcome := MayManageTarget(actor, target);
      if outcome != Fine {
        return;
      }
      accounts := accounts[target := accounts[target].(active := true)];
    }

    method ResetUserTotp(actor: nat, target: nat) returns (outcome: Outcome)
      requires MayAct(accounts, actor, ResetTotp(target))
      modifies this
      ensures outcome == Verdict(config, old(accounts), actor, ResetTotp(target))
      ensures accounts == Do(config, old(accounts), actor, ResetTotp(target))
      ensures old(GovernedNow(accounts)) ==> GovernedNow(accounts)
      ensures outcome.Fine? && old(accounts)[target].hasPassword ==> Related(accounts, actor, target)
    {
      StaysGoverned(config, accounts, actor, ResetTotp(target));
      hide Governed, GovernedNow;
      if target !in accounts {
        return NotFound;
      }
      var me, them := accounts[actor], accounts[target];
      if config.multiTenancy && me.role != Superadmin && them.org != me.org {
        return NotFound;
      }
      if target == actor {
        return BadRequest;
      }
      if config.demoMode && them.demo {
        return Forbidden;
      }
      var x := them.(enrolled := false);
      if x.hasPassword {
        x := x.(mustChange := true, maker := Some(actor));
      }
      accounts := accounts[target := x];
      if x.hasPassword {
        assert Up(accounts, Some(target), 1) == Up(accounts, Some(actor), 0) == Some(actor);
      }
      return Fine;
    }

    method CreateUser(actor: nat, id: nat, role: Role, chosen: Option<nat>) returns (outcome: Outcome)
      requires MayAct(accounts, actor, Create(id, role, chosen))
      modifies this
      ensures outcome == Verdict(config, old(accounts), actor, Create(id, role, chosen))
      ensures accounts == Do(config, old(accounts), actor, Create(id, role, chosen))
      ensures outcome.Fine? ==> Related(accounts, actor, id)
    {
      var me := accounts[actor];
      if role == Superadmin && me.role != Superadmin {
        return Forbidden;
      }
      var org := if me.org != None then me.org else config.defaultOrg;
      if chosen != None && config.multiTenancy && me.role == Superadmin {
        org := chosen;
      }
      if org == None || org.value !in config.activeOrgs {
        return Unprocessable;
      }
      accounts := accounts[id := Account(role, true, false, true, true, org, Some(actor), false)];
      assert Up(accounts, Some(id), 1) == Up(accounts, Some(actor), 0) == Some(actor);
      return Fine;
    }
  }

  // ── Cycles of makers ──────────────────────────────────────────────

  ghost predicate Acyclic(t: Table) { forall x: nat, n: nat | n > 0 :: Up(t, Some(x), n) != Some(x) }

  // Makers are accounts of the table, as the foreign key has it.
  ghost predicate MakersExist(t: Table) { forall x | x in t && t[x].maker.Some? :: t[x].maker.value in t }

  ghost predicate SameBut(t: Table, u: Table, x: nat) { forall y | y != x :: MakerOf(u, y) == MakerOf(t, y) }

  lemma {:induction false} AlikeUntil(t: Table, u: Table, x: nat, a: nat, n: nat)
    requires SameBut(t, u, x) && forall i: nat | i < n :: Up(t, Some(a), i) != Some(x)
    ensures Up(u, Some(a), n) == Up(t, Some(a), n)
    decreases n
  {
    if n > 0 {
      AlikeUntil(t, u, x, a, n - 1);
      UpOneMore(t, Some(a), n - 1);
      UpOneMore(u, Some(a), n - 1);
      assert Up(t, Some(a), n - 1) != Some(x);
    }
  }

  lemma {:induction false} FirstVisit(t: Table, a: nat, x: nat, n: nat) returns (m: nat)
    requires Up(t, Some(a), n) == Some(x)
    ensures m <= n && Up(t, Some(a), m) == Some(x) && forall i: nat | i < m :: Up(t, Some(a), i) != Some(x)
    decreases n
  {
    if i: nat :| i < n && Up(t, Some(a), i) == Some(x) {
      m := FirstVisit(t, a, x, i);
    } else {
      m := n;
    }
  }

  // Giving x the maker m closes a cycle exactly if m reaches x.
  lemma MakerSetIff(t: Table, u: Table, x: nat, m: nat)
    requires Acyclic(t) && SameBut(t, u, x) && MakerOf(u, x) == Some(m)
    ensures Acyclic(u) <==> !Reaches(t, m, x)
  {
    if Reaches(t, m, x) {
      var n: nat :| Up(t, Some(m), n) == Some(x);
      var k := FirstVisit(t, m, x, n);
      AlikeUntil(t, u, x, m, k);
      assert Up(u, Some(x), k + 1) == Some(x);
    } else {
      forall y: nat, n: nat | n > 0 ensures Up(u, Some(y), n) != Some(y) {
        if Up(u, Some(y), n) == Some(y) {
          CycleWasThereOrPasses(t, u, x, m, y, n);
        }
      }
    }
  }

  // A cycle that is there afterwards was there before, or it passes x on its
  // way from m.
  lemma CycleWasThereOrPasses(t: Table, u: Table, x: nat, m: nat, y: nat, n: nat)
    requires SameBut(t, u, x) && MakerOf(u, x) == Some(m) && n > 0 && Up(u, Some(y), n) == Some(y)
    ensures Up(t, Some(y), n) == Some(y) || Reaches(t, m, x)
  {
    assert SameBut(u, t, x);
    if i: nat :| i < n && Up(u, Some(y), i) == Some(x) {
      UpOneMore(u, Some(y), i);
      UpAdds(u, y, i + 1, m, n - i - 1);
      UpAdds(u, m, n - i - 1, y, i);
      assert Up(u, Some(m), n - 1) == Some(x);
      var k := FirstVisit(u, m, x, n - 1);
      AlikeUntil(u, t, x, m, k);
    } else {
      AlikeUntil(u, t, x, y, n);
    }
  }

  lemma {:induction false} SameMakersSameWalk(t: Table, u: Table, a: Option<nat>, n: nat)
    requires forall y :: MakerOf(u, y) == MakerOf(t, y)
    ensures Up(u, a, n) == Up(t, a, n)
    decreases n
  {
    if n > 0 && a.Some? {
      SameMakersSameWalk(t, u, MakerOf(t, a.value), n - 1);
    }
  }

  lemma ReachesOnlyAccounts(t: Table, a: nat, x: nat)
    requires MakersExist(t) && a in t && Reaches(t, a, x)
    ensures x in t
  {
    var n: nat :| Up(t, Some(a), n) == Some(x);
    forall y | y in t.Keys ensures MakerIsNext(t, t.Keys, None, y) {
      assert y in t;
    }
    ClosedUnderMakers(t, t.Keys, Some(a), n);
  }

  // A request closes a cycle exactly if it resets, with its password, an
  // account that made the one who resets it, directly or through others.
  lemma CycleIff(c: Config, t: Table, actor: nat, op: Op)
    requires MayAct(t, actor, op) && MakersExist(t) && Acyclic(t)
    ensures MakersExist(Do(c, t, actor, op))
    ensures Acyclic(Do(c, t, actor, op)) <==>
            !(op.ResetTotp? && Verdict(c, t, actor, op) == Fine && t[op.target].hasPassword && Reaches(t, actor, op.target))
  {
    var u := Do(c, t, actor, op);
    if op.Create? && Verdict(c, t, actor, op) == Fine {
      MakerSetIff(t, u, op.id, actor);
      if Reaches(t, actor, op.id) {
        ReachesOnlyAccounts(t, actor, op.id);
      }
    } else if op.ResetTotp? && Verdict(c, t, actor, op) == Fine && t[op.target].hasPassword {
      MakerSetIff(t, u, op.target, actor);
    } else {
      forall x: nat, n: nat | n > 0 ensures Up(u, Some(x), n) == Up(t, Some(x), n) {
        SameMakersSameWalk(t, u, Some(x), n);
      }
    }
  }

  // Two superadmins who reset each other are each other's makers.
  lemma ResetsMakeACycle(c: Config, t: Table, a: nat, b: nat)
    requires a != b && MayAct(t, a, ResetTotp(b)) && b in t && t[b].role.Superadmin? && t[b].active && !c.demoMode
    requires t[a].hasPassword && t[b].hasPassword
    ensures var ops := [(a, ResetTotp(b)), (b, Enrol), (b, ChangePassword), (b, ResetTotp(a))];
            Run(c, t, ops) && MakerOf(End(c, t, ops), a) == Some(b) && MakerOf(End(c, t, ops), b) == Some(a)
  {
    var t1 := Do(c, t, a, ResetTotp(b));
    var t2 := Do(c, t1, b, Enrol);
    var t3 := Do(c, t2, b, ChangePassword);
    var t4 := Do(c, t3, b, ResetTotp(a));
    assert MayAct(t1, b, Enrol) && MayAct(t2, b, ChangePassword) && MayAct(t3, b, ResetTotp(a));
    hide Do, MayAct;
    RunThen(c, t3, b, ResetTotp(a), []);
    RunThen(c, t2, b, ChangePassword, [(b, ResetTotp(a))]);
    RunThen(c, t1, b, Enrol, [(b, ChangePassword), (b, ResetTotp(a))]);
    RunThen(c, t, a, ResetTotp(b), [(b, Enrol), (b, ChangePassword), (b, ResetTotp(a))]);
    assert [(b, ResetTotp(a))] + [] == [(b, ResetTotp(a))];
    assert [(a, ResetTotp(b)), (b, Enrol), (b, ChangePassword), (b, ResetTotp(a))] ==
           [(a, ResetTotp(b))] + [(b, Enrol), (b, ChangePassword), (b, ResetTotp(a))];
  }

  lemma RunThen(c: Config, t: Table, actor: nat, op: Op, rest: seq<(nat, Op)>)
    requires MayAct(t, actor, op) && Run(c, Do(c, t, actor, op), rest)
    ensures Run(c, t, [(actor, op)] + rest)
    ensures End(c, t, [(actor, op)] + rest) == End(c, Do(c, t, actor, op), rest)
  {
    hide Do, MayAct;
    assert ([(actor, op)] + rest)[1..] == rest;
  }

  // ── Relations that end ────────────────────────────────────────────

  // a reaches b without passing x on the way.
  ghost predicate ReachesBefore(t: Table, a: nat, x: nat, b: nat) {
    exists n: nat :: Up(t, Some(a), n) == Some(b) && forall i: nat | i < n :: Up(t, Some(a), i) != Some(x)
  }

  // What a reaches once x has the maker m, by the links there were.
  ghost predicate ReachesAnew(t: Table, x: nat, m: nat, a: nat, b: nat) {
    ReachesBefore(t, a, x, b) || (Reaches(t, a, x) && ReachesBefore(t, m, x, b))
  }

  lemma {:induction false} AnewIsEnough(t: Table, u: Table, x: nat, m: nat, a: nat, b: nat, n: nat)
    requires SameBut(t, u, x) && MakerOf(u, x) == Some(m) && Up(u, Some(a), n) == Some(b)
    ensures ReachesAnew(t, x, m, a, b)
    decreases n
  {
    assert SameBut(u, t, x);
    if i: nat :| i < n && Up(u, Some(a), i) == Some(x) {
      var k := FirstVisit(u, a, x, i);
      AlikeUntil(u, t, x, a, k);
      UpOneMore(u, Some(a), i);
      UpAdds(u, a, i + 1, m, n - i - 1);
      AnewIsEnough(t, u, x, m, m, b, n - i - 1);
    } else {
      forall k: nat | k <= n ensures Up(t, Some(a), k) == Up(u, Some(a), k) {
        AlikeUntil(u, t, x, a, k);
      }
    }
  }

  lemma BeforeStays(t: Table, u: Table, x: nat, a: nat, b: nat)
    requires SameBut(t, u, x) && ReachesBefore(t, a, x, b)
    ensures Reaches(u, a, b)
  {
    var n: nat :| Up(t, Some(a), n) == Some(b) && forall i: nat | i < n :: Up(t, Some(a), i) != Some(x);
    AlikeUntil(t, u, x, a, n);
  }

  lemma ThroughTheNewMaker(t: Table, u: Table, x: nat, m: nat, a: nat, b: nat)
    requires SameBut(t, u, x) && MakerOf(u, x) == Some(m) && Reaches(t, a, x) && ReachesBefore(t, m, x, b)
    ensures Reaches(u, a, b)
  {
    ReachesIsBefore(t, a, x);
    BeforeStays(t, u, x, a, x);
    BeforeStays(t, u, x, m, b);
    assert Up(u, Some(x), 1) == Some(m);
    hide Up, SameBut, ReachesBefore;
    ReachesThrough(u, a, x, m);
    ReachesThrough(u, a, m, b);
  }

  lemma ReachesIsBefore(t: Table, a: nat, x: nat)
    requires Reaches(t, a, x)
    ensures ReachesBefore(t, a, x, x)
  {
    var n: nat :| Up(t, Some(a), n) == Some(x);
    var k := FirstVisit(t, a, x, n);
  }

  lemma ReachesAnewIff(t: Table, u: Table, x: nat, m: nat, a: nat, b: nat)
    requires SameBut(t, u, x) && MakerOf(u, x) == Some(m)
    ensures Reaches(u, a, b) <==> ReachesAnew(t, x, m, a, b)
  {
    if Reaches(u, a, b) {
      var n: nat :| Up(u, Some(a), n) == Some(b);
      AnewIsEnough(t, u, x, m, a, b, n);
    }
    hide Up, SameBut, Reaches, ReachesBefore;
    if ReachesBefore(t, a, x, b) {
      BeforeStays(t, u, x, a, b);
    } else if ReachesAnew(t, x, m, a, b) {
      ThroughTheNewMaker(t, u, x, m, a, b);
    }
  }

  predicate SetsMaker(c: Config, t: Table, actor: nat, op: Op)
    requires MayAct(t, actor, op)
  {
    op.ResetTotp? && Verdict(c, t, actor, op) == Fine && t[op.target].hasPassword
  }

  // Two accounts are related after a request exactly if they were before; but a
  // reset that sets a password puts its actor's makers in place of the target's.
  lemma RelatedAfterIff(c: Config, t: Table, actor: nat, op: Op, a: nat, b: nat)
    requires MayAct(t, actor, op) && MakersExist(t) && a in t && b in t
    ensures Related(Do(c, t, actor, op), a, b) <==>
            if SetsMaker(c, t, actor, op) then ReachesAnew(t, op.target, actor, a, b) || ReachesAnew(t, op.target, actor, b, a)
            else Related(t, a, b)
  {
    var u := Do(c, t, actor, op);
    if SetsMaker(c, t, actor, op) {
      ReachesAnewIff(t, u, op.target, actor, a, b);
      ReachesAnewIff(t, u, op.target, actor, b, a);
    } else if op.Create? {
      NewIsNoMaker(c, t, actor, op, a, b);
      NewIsNoMaker(c, t, actor, op, b, a);
    } else {
      SameMakersReach(t, u, a, b);
      SameMakersReach(t, u, b, a);
    }
  }

  lemma SameMakersReach(t: Table, u: Table, a: nat, b: nat)
    requires forall y :: MakerOf(u, y) == MakerOf(t, y)
    ensures Reaches(u, a, b) <==> Reaches(t, a, b)
  {
    forall n: nat ensures Up(u, Some(a), n) == Up(t, Some(a), n) {
      SameMakersSameWalk(t, u, Some(a), n);
    }
  }

  lemma NewIsNoMaker(c: Config, t: Table, actor: nat, op: Op, a: nat, b: nat)
    requires MayAct(t, actor, op) && op.Create? && MakersExist(t) && a in t && b in t
    ensures Reaches(Do(c, t, actor, op), a, b) <==> Reaches(t, a, b)
  {
    var u := Do(c, t, actor, op);
    forall n: nat ensures Up(u, Some(a), n) == Up(t, Some(a), n) {
      forall i: nat | i < n ensures Up(t, Some(a), i) != Some(op.id) {
        if Up(t, Some(a), i) == Some(op.id) {
          ReachesOnlyAccounts(t, a, op.id);
        }
      }
      AlikeUntil(t, u, op.id, a, n);
    }
  }

  // a made b and b made c: once z, which nobody made, has reset b, a and c may
  // confirm each other's deletions.
  lemma AResetUnrelates(cfg: Config, t: Table, a: nat, b: nat, c: nat, z: nat)
    requires MayAct(t, z, ResetTotp(b)) && Verdict(cfg, t, z, ResetTotp(b)) == Fine && t[b].hasPassword && MakersExist(t)
    requires a in t && c in t && MakerOf(t, c) == Some(b) && MakerOf(t, b) == Some(a)
    requires MakerOf(t, a).None? && MakerOf(t, z).None? && a != b && b != c && c != a && z != a && z != c
    ensures Related(t, a, c) && !Related(Do(cfg, t, z, ResetTotp(b)), a, c)
  {
    assert Up(t, Some(c), 1) == Some(b) && Up(t, Some(b), 1) == Some(a);
    assert Reaches(t, c, b) && Reaches(t, b, a);
    ReachesThrough(t, c, b, a);
    var u := Do(cfg, t, z, ResetTotp(b));
    forall x | Reaches(u, c, x) ensures x == c || x == b || x == z {
      var n: nat :| Up(u, Some(c), n) == Some(x);
      ClosedUnderMakers(u, {c, b, z}, Some(c), n);
    }
    forall x | Reaches(u, a, x) ensures x == a {
      var n: nat :| Up(u, Some(a), n) == Some(x);
      ClosedUnderMakers(u, {a}, Some(a), n);
    }
  }

  // The count of administrators never stops such a request: whoever makes it
  // is one of them, and the account it is about is another.
  lemma TheCountNeverRefuses(c: Config, t: Table, actor: nat, op: Op)
    requires MayAct(t, actor, op) && !op.Create?
    ensures Verdict(c, t, actor, op) != Unprocessable
  {
    if op.ChangeRole? || op.Deactivate? {
      if op.target in t && op.target != actor && Privileged(t[op.target]) && t[op.target].active {
        var pair := {actor, op.target};
        assert pair <= ActivePrivileged(t);
        Facts.SubsetSize(pair, ActivePrivileged(t));
      }
    }
  }

  // ── Requests that overlap ─────────────────────────────────────────

  // A handler that checked table t commits onto table u: its UPDATE names the
  // columns it has changed since it loaded them.
  function Committed(c: Config, t: Table, u: Table, actor: nat, op: Op): Table
    requires actor in t
  {
    var mine := Changed(c, t, actor, op);
    if op.Create? then u[op.id := mine[op.id]]
    else
      var x := TargetOf(actor, op);
      if x !in t || x !in u then u else u[x := Merged(t[x], mine[x], u[x])]
  }

  // The account a request is about.
  function TargetOf(actor: nat, op: Op): nat {
    match op
    case Create(id, _, _) => id
    case ChangeRole(x, _) => x
    case Deactivate(x) => x
    case Reactivate(x) => x
    case ResetTotp(x) => x
    case _ => actor
  }

  function Merged(loaded: Account, mine: Account, current: Account): Account {
    Account(
      if mine.role != loaded.role then mine.role else current.role,
      if mine.active != loaded.active then mine.active else current.active,
      if mine.enrolled != loaded.enrolled then mine.enrolled else current.enrolled,
      if mine.mustChange != loaded.mustChange then mine.mustChange else current.mustChange,
      current.hasPassword,
      current.org,
      if mine.maker != loaded.maker then mine.maker else current.maker,
      current.demo)
  }

  // Beside what others have changed meanwhile, a commit changes its own columns:
  // a role, an activity, or with a reset authenticator, password and maker.
  lemma OnlyItsColumns(c: Config, t: Table, u: Table, actor: nat, op: Op, x: nat)
    requires MayAct(t, actor, op) && x in t && x in u && !op.Create?
    ensures x in Committed(c, t, u, actor, op)
    ensures var was, now := u[x], Committed(c, t, u, actor, op)[x];
            && (now.role != was.role ==> op.ChangeRole?)
            && (now.active != was.active ==> op.Deactivate? || op.Reactivate?)
            && (now.enrolled != was.enrolled ==> op.Enrol? || op.ResetTotp?)
            && (now.mustChange != was.mustChange ==> op.ChangePassword? || op.ResetTotp?)
            && (now.maker != was.maker ==> op.ResetTotp?)
            && now.hasPassword == was.hasPassword && now.org == was.org && now.demo == was.demo
            && (now != was ==> x == TargetOf(actor, op))
  {
  }

  // The handler takes this account's activity, or a role it does not keep.
  predicate Stops(t: Table, op: Op, x: nat) {
    && x in t
    && ((op == Deactivate(x) && t[x].active)
        || (op.ChangeRole? && op.target == x && !op.role.Superadmin? && op.role != t[x].role))
  }

  ghost predicate Governs(t: Table, a: nat) { a in t && t[a].role.Superadmin? && t[a].active }

  // The accounts of u are t's or newer.
  ghost predicate Newer(t: Table, u: Table) { forall x | x in t :: x in u }

  lemma GovernsAfter(c: Config, t: Table, u: Table, actor: nat, op: Op, x: nat)
    requires MayAct(t, actor, op) && Newer(t, u) && (op.Create? ==> op.id !in u)
    requires Governs(u, x)
    ensures Governs(Committed(c, t, u, actor, op), x) <==> !Stops(t, op, x)
  {
  }

  // A commit onto whatever the table has become takes the last active
  // superadmin exactly if it stops the only one there is by then, and makes
  // nobody else one.
  lemma CommitGovernsIff(c: Config, t: Table, u: Table, actor: nat, op: Op)
    requires MayAct(t, actor, op) && Newer(t, u) && (op.Create? ==> op.id !in u) && Governed(u)
    ensures Governed(Committed(c, t, u, actor, op)) <==>
            exists x :: Governs(u, x) && !Stops(t, op, x)
  {
    var v := Committed(c, t, u, actor, op);
    forall x | Governs(u, x) ensures Governs(v, x) <==> !Stops(t, op, x) {
      GovernsAfter(c, t, u, actor, op, x);
    }
    if Governed(v) {
      var y :| y in v && v[y].role.Superadmin? && v[y].active;
      assert Governs(v, y);
      if !(exists x :: Governs(u, x) && !Stops(t, op, x)) {
        var z :| z in u && u[z].role.Superadmin? && u[z].active;
        assert Governs(u, z) && Stops(t, op, z);
        OnlyItsTarget(c, t, u, actor, op, z, y);
      }
    }
    if exists x :: Governs(u, x) && !Stops(t, op, x) {
      var x :| Governs(u, x) && !Stops(t, op, x);
      assert Governs(v, x);
    }
  }

  // A handler that stops an account changes no other.
  lemma OnlyItsTarget(c: Config, t: Table, u: Table, actor: nat, op: Op, z: nat, y: nat)
    requires MayAct(t, actor, op) && Newer(t, u) && Stops(t, op, z) && y != z
    ensures Governs(Committed(c, t, u, actor, op), y) <==> Governs(u, y)
    ensures !Governs(Committed(c, t, u, actor, op), z)
  {
  }

  lemma ACommitAlone(c: Config, t: Table, actor: nat, op: Op)
    requires MayAct(t, actor, op)
    ensures Committed(c, t, t, actor, op) == Changed(c, t, actor, op)
  {
  }

  // Two at once, both checks having read the table before either commit: no
  // active superadmin is left exactly if two superadmins, with no third, each
  // stop the other.
  lemma TwoAtOnceGovernIff(c: Config, t: Table, a: nat, b: nat, first: Op, second: Op)
    requires a != b && Governed(t) && MayAct(t, a, first) && MayAct(t, b, second)
    requires Verdict(c, t, a, first) == Fine && Verdict(c, t, b, second) == Fine
    requires first.Create? && second.Create? ==> first.id != second.id
    ensures Governed(Committed(c, t, Changed(c, t, a, first), b, second)) <==>
            !(Stops(t, first, b) && Stops(t, second, a) && Governs(t, a) && Governs(t, b)
              && forall x | Governs(t, x) :: x == a || x == b)
  {
    var u := Changed(c, t, a, first);
    ACommitAlone(c, t, a, first);
    StaysGoverned(c, t, a, first);
    CommitGovernsIff(c, t, u, b, second);
    forall x | Governs(t, x) ensures Governs(u, x) <==> !Stops(t, first, x) {
      GovernsAfter(c, t, t, a, first, x);
    }
    if Governs(t, a) {
      assert !Stops(t, first, a);
    }
    if Stops(t, first, b) && Governs(t, b) {
      forall x | x != b ensures Governs(u, x) <==> Governs(t, x) {
        OnlyItsTarget(c, t, t, a, first, b, x);
      }
    }
    hide Changed, Committed;
    if !(exists x :: Governs(u, x) && !Stops(t, second, x)) {
      NobodyLeft(c, t, u, a, b, first, second);
    }
  }

  lemma NobodyLeft(c: Config, t: Table, u: Table, a: nat, b: nat, first: Op, second: Op)
    requires a != b && Governed(u) && MayAct(t, a, first) && MayAct(t, b, second)
    requires Verdict(c, t, a, first) == Fine && Verdict(c, t, b, second) == Fine
    requires u == Changed(c, t, a, first)
    requires forall x | Governs(t, x) :: Governs(u, x) <==> !Stops(t, first, x)
    requires forall x | Governs(u, x) :: Stops(t, second, x)
    ensures Stops(t, first, b) && Stops(t, second, a) && Governs(t, a) && Governs(t, b)
    ensures forall x | Governs(t, x) :: x == a || x == b
  {
    var y :| y in u && u[y].role.Superadmin? && u[y].active;
    assert Governs(u, y) && Stops(t, second, y);
    // Had the first request made y one, a would be one still, and not stopped.
    assert Governs(t, a) ==> Governs(u, a) && Stops(t, second, a);
    assert t[y].role.Superadmin?;
    assert Governs(t, b) && !Stops(t, second, b);
    assert Stops(t, first, b);
    assert Governs(t, a) && !Stops(t, first, a);
    assert Stops(t, second, a);
  }

  // So each superadmin of two has the other deactivated.
  lemma TwoAtOnce(c: Config, t: Table, a: nat, b: nat)
    requires a != b && MayAct(t, a, Deactivate(b)) && MayAct(t, b, Deactivate(a)) && !c.demoMode
    requires t[a].role.Superadmin? && t[b].role.Superadmin?
    requires forall x | x in t && t[x].role.Superadmin? && t[x].active :: x == a || x == b
    ensures Verdict(c, t, a, Deactivate(b)) == Fine && Verdict(c, t, b, Deactivate(a)) == Fine
    ensures !Governed(Committed(c, t, Changed(c, t, a, Deactivate(b)), b, Deactivate(a)))
  {
    TheCountNeverRefuses(c, t, a, Deactivate(b));
    TheCountNeverRefuses(c, t, b, Deactivate(a));
    TwoAtOnceGovernIff(c, t, a, b, Deactivate(b), Deactivate(a));
  }
}
