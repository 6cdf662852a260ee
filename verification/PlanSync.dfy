/** Keeping a user's inbound assignments equal to a plan's inbound list:
    apps/api/src/inbounds/plan-assignment-sync.service.ts. Rows are looked up by their
    unique keys, a missing row is absent from its map, and the order in which a query
    returns rows is left open. Drawn credentials and the time are inputs. */
module PlanSync {
  import opened Options
  import opened Engines

  type InboundId = string
  type UserId = string
  type PlanId = string
  type Credential = string
  type Time = int

  datatype Status = ACTIVE | DISABLED

  datatype Pair = Pair(user: UserId, inbound: InboundId)

  datatype Assignment = Assignment(
    status: Status, credential: Credential, name: UserId, version: int,
    disabledAt: Option<Time>, rotatedAt: Option<Time>)
  datatype Inbound = Inbound(engine: Engine, revision: int, needsApply: bool)
  datatype User = User(plan: Option<PlanId>, deleted: bool, revision: int, needsApply: bool)
  datatype CoreState = CoreState(desiredRevision: int, appliedRevision: int)

  datatype Tables = Tables(
    assignments: map<Pair, Assignment>,
    inbounds: map<InboundId, Inbound>,
    users: map<UserId, User>,
    core: map<Engine, CoreState>)

  type Draw = Pair -> Credential

  /** Foreign keys. */
  ghost predicate Valid(t: Tables) {
    forall p :: p in t.assignments ==> p.user in t.users && p.inbound in t.inbounds
  }

  predicate Active(t: Tables, p: Pair) { p in t.assignments && t.assignments[p].status == ACTIVE }

  /** The inbounds a user is assigned to. */
  function ActiveSet(t: Tables, u: UserId): set<InboundId> {
    set p | p in t.assignments && p.user == u && t.assignments[p].status == ACTIVE :: p.inbound
  }

  /** The assignments of `us` that are active and not desired or desired and not active. */
  function Changes(t: Tables, us: set<UserId>, desired: set<InboundId>): (c: set<Pair>)
    ensures forall p :: p in c <==> p.user in us && (Active(t, p) <==> p.inbound !in desired)
                                    && (p.inbound in desired || p in t.assignments)
  {
    (set p | p in t.assignments.Keys && p.user in us && Active(t, p) && p.inbound !in desired)
    + (set u, i | u in us && i in desired && !Active(t, Pair(u, i)) :: Pair(u, i))
  }

  function NewVersion(assignments: map<Pair, Assignment>, p: Pair): int {
    if p in assignments then assignments[p].version + 1 else 1
  }

  /** A changed row: disabled with its credential kept, or active with a new one. */
  function NewRow(assignments: map<Pair, Assignment>, desired: set<InboundId>, p: Pair, draw: Draw,
      now: Time): Assignment
    requires p.inbound in desired || p in assignments
  {
    if p.inbound in desired
    then Assignment(ACTIVE, draw(p), p.user, NewVersion(assignments, p), None, Some(now))
    else assignments[p].(status := DISABLED, disabledAt := Some(now))
  }

  function Count(c: set<Pair>, f: Pair -> bool): nat { |set p | p in c && f(p)| }

  function ByInbound(i: InboundId): Pair -> bool { (p: Pair) => p.inbound == i }
  function ByUser(u: UserId): Pair -> bool { (p: Pair) => p.user == u }
  function ByEngine(inbounds: map<InboundId, Inbound>, e: Engine): Pair -> bool {
    (p: Pair) => p.inbound in inbounds && inbounds[p.inbound].engine == e
  }

  /** How many of the assignments in `c` are of one inbound, user or engine. */
  function OfInbound(c: set<Pair>, i: InboundId): nat { Count(c, ByInbound(i)) }
  function OfUser(c: set<Pair>, u: UserId): nat { Count(c, ByUser(u)) }
  function OfEngine(inbounds: map<InboundId, Inbound>, c: set<Pair>, e: Engine): nat {
    Count(c, ByEngine(inbounds, e))
  }

  function Inbounds(inbounds: map<InboundId, Inbound>, c: set<Pair>): map<InboundId, Inbound> {
    map i | i in inbounds ::
      Inbound(inbounds[i].engine, inbounds[i].revision + OfInbound(c, i), inbounds[i].needsApply || OfInbound(c, i) > 0)
  }

  function Users(users: map<UserId, User>, c: set<Pair>): map<UserId, User> {
    map u | u in users ::
      User(users[u].plan, users[u].deleted, users[u].revision + OfUser(c, u), users[u].needsApply || OfUser(c, u) > 0)
  }

  function DesiredRevision(core: map<Engine, CoreState>, e: Engine): int {
    if e in core then core[e].desiredRevision else 0
  }

  function AppliedRevision(core: map<Engine, CoreState>, e: Engine): int {
    if e in core then core[e].appliedRevision else 0
  }

  function Core(core: map<Engine, CoreState>, inbounds: map<InboundId, Inbound>, c: set<Pair>): map<Engine, CoreState> {
    map e: Engine | e in core || OfEngine(inbounds, c, e) > 0 ::
      CoreState(DesiredRevision(core, e) + OfEngine(inbounds, c, e), AppliedRevision(core, e))
  }

  function Assignments(assignments: map<Pair, Assignment>, desired: set<InboundId>, c: set<Pair>, draw: Draw,
      now: Time): map<Pair, Assignment> {
    map p | p in assignments.Keys + (set q | q in c && q.inbound in desired) ::
      if p in c then NewRow(assignments, desired, p, draw, now) else assignments[p]
  }

  /** The tables once the assignments in `c` have been brought in line, stated row by row. */
  function After(t: Tables, desired: set<InboundId>, c: set<Pair>, draw: Draw, now: Time): Tables {
    Tables(
      Assignments(t.assignments, desired, c, draw, now),
      Inbounds(t.inbounds, c),
      Users(t.users, c),
      Core(t.core, t.inbounds, c))
  }

  /** `bumpDesiredRevision`. */
  function Bumped(core: map<Engine, CoreState>, e: Engine): map<Engine, CoreState> {
    core[e := CoreState(DesiredRevision(core, e) + 1, AppliedRevision(core, e))]
  }

  predicate Known(t: Tables, p: Pair) { p.inbound in t.inbounds && p.user in t.users }

  /** One assignment changed, as the loops do it. */
  function Step(t: Tables, desired: set<InboundId>, p: Pair, draw: Draw, now: Time): Tables
    requires Known(t, p) && (p.inbound in desired || p in t.assignments)
  {
    var inbound, user := t.inbounds[p.inbound], t.users[p.user];
    Tables(
      t.assignments[p := NewRow(t.assignments, desired, p, draw, now)],
      t.inbounds[p.inbound := inbound.(revision := inbound.revision + 1, needsApply := true)],
      t.users[p.user := user.(revision := user.revision + 1, needsApply := true)],
      Bumped(t.core, inbound.engine))
  }

  lemma CountOneMore(c: set<Pair>, p: Pair, f: Pair -> bool)
    requires p !in c
    ensures Count(c + {p}, f) == Count(c, f) + if f(p) then 1 else 0
  {
    assert (set x | x in c + {p} && f(x)) == (set x | x in c && f(x)) + if f(p) then {p} else {};
  }

  lemma OneMore(c: set<Pair>, p: Pair, q: Pair, inbounds: map<InboundId, Inbound>, e: Engine)
    requires p !in c
    ensures OfInbound(c + {p}, q.inbound) == OfInbound(c, q.inbound) + if p.inbound == q.inbound then 1 else 0
    ensures OfUser(c + {p}, q.user) == OfUser(c, q.user) + if p.user == q.user then 1 else 0
    ensures OfEngine(inbounds, c + {p}, e) ==
            OfEngine(inbounds, c, e) + if p.inbound in inbounds && inbounds[p.inbound].engine == e then 1 else 0
  {
    hide Count;
    CountOneMore(c, p, ByInbound(q.inbound));
    CountOneMore(c, p, ByUser(q.user));
    CountOneMore(c, p, ByEngine(inbounds, e));
  }

  lemma InboundsStep(inbounds: map<InboundId, Inbound>, c: set<Pair>, p: Pair)
    requires p !in c && p.inbound in inbounds
    ensures Inbounds(inbounds, c + {p}) ==
      var before := Inbounds(inbounds, c);
      before[p.inbound := Inbound(inbounds[p.inbound].engine, before[p.inbound].revision + 1, true)]
  {
    hide OfInbound, OfUser, OfEngine;
    forall i | i in inbounds
      ensures OfInbound(c + {p}, i) == OfInbound(c, i) + if p.inbound == i then 1 else 0
    {
      OneMore(c, p, Pair(p.user, i), inbounds, SING_BOX);
    }
  }

  lemma UsersStep(users: map<UserId, User>, c: set<Pair>, p: Pair)
    requires p !in c && p.user in users
    ensures Users(users, c + {p}) ==
      var before := Users(users, c);
      before[p.user := User(users[p.user].plan, users[p.user].deleted, before[p.user].revision + 1, true)]
  {
    hide OfInbound, OfUser, OfEngine;
    forall u | u in users
      ensures OfUser(c + {p}, u) == OfUser(c, u) + if p.user == u then 1 else 0
    {
      OneMore(c, p, Pair(u, p.inbound), map[], SING_BOX);
    }
  }

  lemma CoreStep(core: map<Engine, CoreState>, inbounds: map<InboundId, Inbound>, c: set<Pair>, p: Pair)
    requires p !in c && p.inbound in inbounds
    ensures Core(core, inbounds, c + {p}) == Bumped(Core(core, inbounds, c), inbounds[p.inbound].engine)
  {
    hide OfInbound, OfUser, OfEngine;
    forall e: Engine
      ensures OfEngine(inbounds, c + {p}, e) ==
        OfEngine(inbounds, c, e) + if inbounds[p.inbound].engine == e then 1 else 0
    {
      OneMore(c, p, p, inbounds, e);
    }
    var more, bumped := Core(core, inbounds, c + {p}), Bumped(Core(core, inbounds, c), inbounds[p.inbound].engine);
    forall e: Engine ensures (e in more <==> e in bumped) && (e in more ==> more[e] == bumped[e]) { }
  }

  lemma AssignmentsStep(assignments: map<Pair, Assignment>, desired: set<InboundId>, c: set<Pair>, p: Pair, draw: Draw,
      now: Time)
    requires p !in c && (p.inbound in desired || p in assignments)
    ensures p in Assignments(assignments, desired, c, draw, now) <==> p in assignments
    ensures p in assignments ==> Assignments(assignments, desired, c, draw, now)[p] == assignments[p]
    ensures Assignments(assignments, desired, c + {p}, draw, now) ==
      Assignments(assignments, desired, c, draw, now)[p := NewRow(assignments, desired, p, draw, now)]
  {
    hide NewRow;
  }

  lemma InboundsShape(inbounds: map<InboundId, Inbound>, c: set<Pair>, i: InboundId)
    requires i in inbounds
    ensures i in Inbounds(inbounds, c) && Inbounds(inbounds, c)[i].engine == inbounds[i].engine
  {
  }

  lemma UsersShape(users: map<UserId, User>, c: set<Pair>, u: UserId)
    requires u in users
    ensures u in Users(users, c) && Users(users, c)[u].plan == users[u].plan
      && Users(users, c)[u].deleted == users[u].deleted
  {
  }

  /** The order in which the assignments are changed does not matter. */
  lemma AfterStep(t: Tables, desired: set<InboundId>, c: set<Pair>, p: Pair, draw: Draw, now: Time)
    requires p !in c && Known(t, p) && (p.inbound in desired || p in t.assignments)
    ensures Known(After(t, desired, c, draw, now), p)
    ensures p.inbound in desired || p in After(t, desired, c, draw, now).assignments
    ensures After(t, desired, c + {p}, draw, now) == Step(After(t, desired, c, draw, now), desired, p, draw, now)
  {
    hide Assignments, Inbounds, Users, Core, Bumped;
    AssignmentsStep(t.assignments, desired, c, p, draw, now);
    InboundsStep(t.inbounds, c, p);
    InboundsShape(t.inbounds, c, p.inbound);
    UsersShape(t.users, c, p.user);
    UsersStep(t.users, c, p);
    CoreStep(t.core, t.inbounds, c, p);
  }

  lemma CountNothing(f: Pair -> bool)
    ensures Count({}, f) == 0
  {
    assert (set p | p in {} && f(p)) == {};
  }

  lemma InboundsNothing(inbounds: map<InboundId, Inbound>)
    ensures Inbounds(inbounds, {}) == inbounds
  {
    hide Count;
    forall i | i in inbounds ensures OfInbound({}, i) == 0 { CountNothing(ByInbound(i)); }
  }

  lemma UsersNothing(users: map<UserId, User>)
    ensures Users(users, {}) == users
  {
    hide Count;
    forall u | u in users ensures OfUser({}, u) == 0 { CountNothing(ByUser(u)); }
  }

  lemma CoreNothing(core: map<Engine, CoreState>, inbounds: map<InboundId, Inbound>)
    ensures Core(core, inbounds, {}) == core
  {
    hide Count;
    forall e: Engine ensures OfEngine(inbounds, {}, e) == 0 { CountNothing(ByEngine(inbounds, e)); }
  }

  lemma AfterNothing(t: Tables, desired: set<InboundId>, draw: Draw, now: Time)
    ensures After(t, desired, {}, draw, now) == t
  {
    hide Inbounds, Users, Core;
    InboundsNothing(t.inbounds);
    UsersNothing(t.users);
    CoreNothing(t.core, t.inbounds);
    assert Assignments(t.assignments, desired, {}, draw, now) == t.assignments;
  }

  /** Changing one batch and then another is changing both. */
  lemma {:induction false} AfterUnion(t: Tables, desired: set<InboundId>, c1: set<Pair>, c2: set<Pair>, draw: Draw,
      now: Time)
    requires c1 !! c2 && forall p :: p in c2 ==> Known(t, p) && (p.inbound in desired || p in t.assignments)
    ensures After(After(t, desired, c1, draw, now), desired, c2, draw, now) == After(t, desired, c1 + c2, draw, now)
    decreases c2
  {
    hide After, Step;
    if c2 == {} {
      AfterNothing(After(t, desired, c1, draw, now), desired, draw, now);
      assert c1 + c2 == c1;
    } else {
      var p :| p in c2;
      var rest := c2 - {p};
      AfterUnion(t, desired, c1, rest, draw, now);
      AfterKeeps(t, desired, c1, p, draw, now);
      AfterStep(t, desired, c1 + rest, p, draw, now);
      AfterStep(After(t, desired, c1, draw, now), desired, rest, p, draw, now);
      assert rest + {p} == c2 && c1 + rest + {p} == c1 + c2;
    }
  }

  lemma AfterKeeps(t: Tables, desired: set<InboundId>, c: set<Pair>, p: Pair, draw: Draw, now: Time)
    requires Known(t, p) && (p.inbound in desired || p in t.assignments)
    ensures Known(After(t, desired, c, draw, now), p)
    ensures p.inbound in desired || p in After(t, desired, c, draw, now).assignments
  {
  }

  // ---------------------------------------------------------------- the service

  /** `[...new Set(ids)]`: the first of equal ids stays. */
  function Distinct(ids: seq<InboundId>): (r: seq<InboundId>)
    ensures forall i :: i in r <==> i in ids
    ensures forall j, k :: 0 <= j < k < |r| ==> r[j] != r[k]
  {
    if ids == [] then []
    else
      var r := Distinct(ids[..|ids| - 1]);
      if ids[|ids| - 1] in r then r else r + [ids[|ids| - 1]]
  }

  function Ids(ids: seq<InboundId>): set<InboundId> { set i | i in ids }

  class Sync {
    var assignments: map<Pair, Assignment>
    var inbounds: map<InboundId, Inbound>
    var users: map<UserId, User>
    var core: map<Engine, CoreState>

    ghost function Now(): Tables
      reads this
    {
      Tables(assignments, inbounds, users, core)
    }

    method BumpDesiredRevision(e: Engine)
      modifies this`core
      ensures core == Bumped(old(core), e)
    {
      if e in core {
        core := core[e := core[e].(desiredRevision := core[e].desiredRevision + 1)];
      } else {
        core := core[e := CoreState(1, 0)];
      }
    }

    method MarkAssignmentChanged(i: InboundId, u: UserId)
      requires i in inbounds && u in users
      modifies this`inbounds, this`users, this`core
      ensures inbounds ==
        old(inbounds)[i := old(inbounds)[i].(revision := old(inbounds)[i].revision + 1, needsApply := true)]
      ensures users == old(users)[u := old(users)[u].(revision := old(users)[u].revision + 1, needsApply := true)]
      ensures core == Bumped(old(core), old(inbounds)[i].engine)
    {
      inbounds := inbounds[i := inbounds[i].(revision := inbounds[i].revision + 1, needsApply := true)];
      users := users[u := users[u].(revision := users[u].revision + 1, needsApply := true)];
      BumpDesiredRevision(inbounds[i].engine);
    }

    method Disable(p: Pair, ghost desired: set<InboundId>, ghost draw: Draw, now: Time)
      requires Known(Now(), p) && p in assignments && p.inbound !in desired
      modifies this
      ensures Now() == Step(old(Now()), desired, p, draw, now)
    {
      assignments := assignments[p := assignments[p].(status := DISABLED, disabledAt := Some(now))];
      MarkAssignmentChanged(p.inbound, p.user);
    }

    method Enable(p: Pair, known: bool, ghost desired: set<InboundId>, draw: Draw, now: Time)
      requires Known(Now(), p) && p.inbound in desired && known == (p in assignments)
      modifies this
      ensures Now() == Step(old(Now()), desired, p, draw, now)
    {
      var credential := draw(p);
      if known {
        var version := assignments[p].version + 1;
        assignments := assignments[p := Assignment(ACTIVE, credential, p.user, version, None, Some(now))];
      } else {
        assignments := assignments[p := Assignment(ACTIVE, credential, p.user, 1, None, Some(now))];
      }
      MarkAssignmentChanged(p.inbound, p.user);
    }

    /** The first loop: active rows that are not desired. */
    method DisableOthers(u: UserId, desired: seq<InboundId>, draw: Draw, now: Time) returns (ghost c: set<Pair>)
      requires Valid(Now()) && u in users
      modifies this
      ensures c == set p | p in old(assignments) && p.user == u && Active(old(Now()), p) && p.inbound !in desired
      ensures Now() == After(old(Now()), Ids(desired), c, draw, now)
    {
      hide After, Step;
      ghost var t0 := Now();
      c := {};
      AfterNothing(t0, Ids(desired), draw, now);
      var existing := set p | p in assignments && p.user == u;
      var rows := assignments;
      var rest := existing;
      while rest != {}
        invariant rest <= existing
        invariant c == set p | p in existing - rest && Active(t0, p) && p.inbound !in desired
        invariant Now() == After(t0, Ids(desired), c, draw, now)
      {
        var p :| p in rest;
        if p.inbound !in desired && rows[p].status == ACTIVE {
          AfterStep(t0, Ids(desired), c, p, draw, now);
          RowUntouched(t0, Ids(desired), c, p, draw, now);
          Disable(p, Ids(desired), draw, now);
          c := c + {p};
        }
        rest := rest - {p};
      }
    }

    /** `syncUserToInboundIds`. On an error the caller's transaction is rolled back. */
    method SyncUserToInboundIds(u: UserId, ids: seq<InboundId>, draw: Draw, now: Time)
        returns (missing: Option<InboundId>)
      requires Valid(Now()) && u in users
      modifies this
      ensures missing.None? <==> forall i :: i in ids ==> i in old(inbounds)
      ensures missing.Some? ==> missing.value in ids && missing.value !in old(inbounds)
      ensures missing.None? ==> Now() == After(old(Now()), Ids(ids), Changes(old(Now()), {u}, Ids(ids)), draw, now)
    {
      hide After, Step, Valid, Changes;
      ghost var t0 := Now();
      var desired := Distinct(ids);
      assert Ids(desired) == Ids(ids);
      var existing := assignments;
      ghost var c := DisableOthers(u, desired, draw, now);
      ghost var disabled := c;
      KeysKept(t0, Ids(ids), c, draw, now);
      var k := 0;
      while k < |desired|
        invariant 0 <= k <= |desired|
        invariant forall j :: 0 <= j < k ==> desired[j] in t0.inbounds
        invariant forall p :: p in c <==> p in disabled || (p.user == u && !Active(t0, p) && p.inbound in desired[..k])
        invariant Now() == After(t0, Ids(ids), c, draw, now)
        invariant inbounds.Keys == t0.inbounds.Keys && users.Keys == t0.users.Keys
      {
        var i := desired[k];
        var p := Pair(u, i);
        ForeignKey(t0, p);
        if !(p in existing && existing[p].status == ACTIVE) {
          if i !in inbounds { return Some(i); }
          AfterStep(t0, Ids(ids), c, p, draw, now);
          RowUntouched(t0, Ids(ids), c, p, draw, now);
          Enable(p, p in existing, Ids(ids), draw, now);
          KeysKept(t0, Ids(ids), c + {p}, draw, now);
          c := c + {p};
        }
        assert desired[..k + 1] == desired[..k] + [i];
        k := k + 1;
      }
      assert desired[..k] == desired;
      ChangesOfOne(t0, u, desired, disabled, c);
      missing := None;
    }

    /** `syncAllUsersOnPlan`. */
    method SyncAllUsersOnPlan(plan: PlanId, ids: seq<InboundId>, draw: Draw, now: Time)
        returns (missing: Option<InboundId>)
      requires Valid(Now())
      modifies this
      ensures missing.Some? ==> missing.value in ids && missing.value !in old(inbounds)
      ensures missing.None? <==> OnPlan(old(users), plan) == {} || forall i :: i in ids ==> i in old(inbounds)
      ensures missing.None? ==>
        Now() == After(old(Now()), Ids(ids), Changes(old(Now()), OnPlan(old(users), plan), Ids(ids)), draw, now)
    {
      hide After, Valid;
      ghost var t0 := Now();
      var found := OnPlan(users, plan);
      var rest := found;
      ghost var c: set<Pair> := {};
      AfterNothing(t0, Ids(ids), draw, now);
      while rest != {}
        invariant rest <= found
        invariant c == Changes(t0, found - rest, Ids(ids))
        invariant rest != found ==> forall i :: i in ids ==> i in t0.inbounds
        invariant Now() == After(t0, Ids(ids), c, draw, now)
      {
        var u :| u in rest;
        if c != {} { AllKnown(t0, found - rest, Ids(ids)); }
        KeysKept(t0, Ids(ids), c, draw, now);
        AfterIsValid(t0, Ids(ids), c, draw, now);
        ghost var t1 := Now();
        var r := SyncUserToInboundIds(u, ids, draw, now);
        if r.Some? { return r; }
        ghost var c2 := Changes(t1, {u}, Ids(ids));
        OthersUnchanged(t0, found - rest, u, Ids(ids), c, draw, now);
        AllKnown(t0, {u}, Ids(ids));
        AfterUnion(t0, Ids(ids), c, c2, draw, now);
        assert (found - rest) + {u} == found - (rest - {u});
        assert c + c2 == Changes(t0, found - (rest - {u}), Ids(ids));
        c := c + c2;
        rest := rest - {u};
      }
      assert found - rest == found;
      missing := None;
    }
  }

  function OnPlan(users: map<UserId, User>, plan: PlanId): set<UserId> {
    set u | u in users && users[u].plan == Some(plan) && !users[u].deleted
  }

  /** The rows disabled and those enabled are the changes. */
  lemma ChangesOfOne(t: Tables, u: UserId, desired: seq<InboundId>, disabled: set<Pair>, c: set<Pair>)
    requires disabled == set p | p in t.assignments && p.user == u && Active(t, p) && p.inbound !in desired
    requires forall p :: p in c <==> p in disabled || (p.user == u && !Active(t, p) && p.inbound in desired)
    ensures c == Changes(t, {u}, Ids(desired))
  {
  }

  lemma ForeignKey(t: Tables, p: Pair)
    requires Valid(t)
    ensures p in t.assignments ==> p.user in t.users && p.inbound in t.inbounds
  {
  }

  lemma RowUntouched(t: Tables, desired: set<InboundId>, c: set<Pair>, p: Pair, draw: Draw, now: Time)
    requires p !in c
    ensures p in After(t, desired, c, draw, now).assignments <==> p in t.assignments
    ensures p in t.assignments ==> After(t, desired, c, draw, now).assignments[p] == t.assignments[p]
  {
  }

  lemma KeysKept(t: Tables, desired: set<InboundId>, c: set<Pair>, draw: Draw, now: Time)
    ensures After(t, desired, c, draw, now).inbounds.Keys == t.inbounds.Keys
    ensures After(t, desired, c, draw, now).users.Keys == t.users.Keys
  {
  }

  lemma AfterIsValid(t: Tables, desired: set<InboundId>, c: set<Pair>, draw: Draw, now: Time)
    requires Valid(t) && forall p :: p in c ==> Known(t, p)
    ensures Valid(After(t, desired, c, draw, now))
  {
  }

  lemma AllKnown(t: Tables, us: set<UserId>, desired: set<InboundId>)
    requires Valid(t) && us <= t.users.Keys && desired <= t.inbounds.Keys
    ensures forall p :: p in Changes(t, us, desired) ==> Known(t, p) && (p.inbound in desired || p in t.assignments)
  {
  }

  lemma OthersUnchanged(t: Tables, us: set<UserId>, u: UserId, desired: set<InboundId>, c: set<Pair>, draw: Draw,
      now: Time)
    requires c == Changes(t, us, desired) && u !in us
    ensures Changes(After(t, desired, c, draw, now), {u}, desired) == Changes(t, {u}, desired)
    ensures c + Changes(t, {u}, desired) == Changes(t, us + {u}, desired) && c !! Changes(t, {u}, desired)
  {
  }

  // ---------------------------------------------------------------- what a sync means

  function SymmetricDifference(a: set<InboundId>, b: set<InboundId>): set<InboundId> { (a - b) + (b - a) }

  /** The tables after every user in `us` has been brought to `desired`. */
  function Synced(t: Tables, us: set<UserId>, desired: set<InboundId>, draw: Draw, now: Time): Tables {
    After(t, desired, Changes(t, us, desired), draw, now)
  }

  ghost predicate CanSync(t: Tables, us: set<UserId>, desired: set<InboundId>) {
    Valid(t) && us <= t.users.Keys && desired <= t.inbounds.Keys
  }

  lemma ActiveAfter(t: Tables, us: set<UserId>, desired: set<InboundId>, draw: Draw, now: Time, p: Pair)
    ensures Active(Synced(t, us, desired, draw, now), p) <==>
      if p.user in us then p.inbound in desired else Active(t, p)
  {
  }

  lemma InActiveSet(t: Tables, u: UserId, i: InboundId)
    ensures i in ActiveSet(t, u) <==> Active(t, Pair(u, i))
  {
    if i in ActiveSet(t, u) {
      var p :| p in t.assignments && p.user == u && t.assignments[p].status == ACTIVE && p.inbound == i;
      assert p == Pair(u, i);
    }
  }

  /** The active assignments become exactly the desired ones, for these users only. */
  lemma ActiveIsDesired(t: Tables, us: set<UserId>, desired: set<InboundId>, draw: Draw, now: Time)
    ensures forall u :: u in us ==> ActiveSet(Synced(t, us, desired, draw, now), u) == desired
    ensures forall u :: u !in us ==> ActiveSet(Synced(t, us, desired, draw, now), u) == ActiveSet(t, u)
  {
    hide Synced, Active, ActiveSet;
    var s := Synced(t, us, desired, draw, now);
    forall u ensures ActiveSet(s, u) == if u in us then desired else ActiveSet(t, u) {
      var expected := if u in us then desired else ActiveSet(t, u);
      forall i ensures i in ActiveSet(s, u) <==> i in expected {
        ActiveAfter(t, us, desired, draw, now, Pair(u, i));
        InActiveSet(s, u, i);
        InActiveSet(t, u, i);
      }
    }
  }

  /** After a sync of a plan its users have exactly the plan's inbounds; deleted users and those
      of other plans keep theirs. */
  lemma PlanIsFollowed(t: Tables, plan: PlanId, desired: set<InboundId>, draw: Draw, now: Time, u: UserId)
    requires u in t.users
    ensures var s := Synced(t, OnPlan(t.users, plan), desired, draw, now);
      ActiveSet(s, u) ==
        if t.users[u].plan == Some(plan) && !t.users[u].deleted then desired else ActiveSet(t, u)
  {
    hide Synced, ActiveSet;
    ActiveIsDesired(t, OnPlan(t.users, plan), desired, draw, now);
  }

  lemma NoChanges(t: Tables, us: set<UserId>, desired: set<InboundId>)
    ensures Changes(t, us, desired) == {} <==> forall u :: u in us ==> ActiveSet(t, u) == desired
  {
    hide Active, ActiveSet;
    forall u, i ensures i in ActiveSet(t, u) <==> Active(t, Pair(u, i)) {
      InActiveSet(t, u, i);
    }
    if Changes(t, us, desired) == {} {
      forall u, i | u in us ensures i in ActiveSet(t, u) <==> i in desired {
        assert Pair(u, i) !in Changes(t, us, desired);
        ActiveExists(t, Pair(u, i));
      }
    } else {
      var p :| p in Changes(t, us, desired);
      assert p == Pair(p.user, p.inbound);
      assert p.inbound in ActiveSet(t, p.user) <==> p.inbound !in desired;
    }
  }

  lemma ActiveExists(t: Tables, p: Pair)
    ensures Active(t, p) ==> p in t.assignments
  {
  }

  /** A second run changes nothing, and only then does a run change nothing. */
  lemma SecondRunChangesNothing(t: Tables, us: set<UserId>, desired: set<InboundId>, draw: Draw, now: Time,
      draw2: Draw, now2: Time)
    requires CanSync(t, us, desired)
    ensures Synced(Synced(t, us, desired, draw, now), us, desired, draw2, now2) == Synced(t, us, desired, draw, now)
    ensures Synced(t, us, desired, draw, now) == t <==> forall u :: u in us ==> ActiveSet(t, u) == desired
  {
    hide After, ActiveSet, Changes;
    var s := Synced(t, us, desired, draw, now);
    ActiveIsDesired(t, us, desired, draw, now);
    NoChanges(s, us, desired);
    assert Changes(s, us, desired) == {};
    AfterNothing(s, desired, draw2, now2);
    assert Synced(s, us, desired, draw2, now2) == s;
    NoChanges(t, us, desired);
    AfterNothing(t, desired, draw, now);
  }

  /** What a sync does to one assignment row. */
  lemma RowsAfter(t: Tables, us: set<UserId>, desired: set<InboundId>, draw: Draw, now: Time, p: Pair)
    requires p in t.assignments
    ensures var s := Synced(t, us, desired, draw, now);
      p in s.assignments
      && (Active(t, p) && Active(s, p) ==> s.assignments[p] == t.assignments[p])
      && (s.assignments[p].version == t.assignments[p].version + if !Active(t, p) && Active(s, p) then 1 else 0)
      && (!Active(s, p) ==> s.assignments[p].credential == t.assignments[p].credential)
      && (!Active(t, p) && !Active(s, p) ==> s.assignments[p] == t.assignments[p])
  {
  }

  /** The inbounds that come or go for a user. */
  function Moves(t: Tables, u: UserId, desired: set<InboundId>): set<InboundId> {
    SymmetricDifference(ActiveSet(t, u), desired)
  }

  /** The users for whom an inbound comes or goes. */
  function Movers(t: Tables, us: set<UserId>, desired: set<InboundId>, i: InboundId): set<UserId> {
    set u | u in us && i in Moves(t, u, desired)
  }

  /** The changes are what comes or goes for each user. */
  lemma ChangesAreMoves(t: Tables, us: set<UserId>, desired: set<InboundId>, p: Pair)
    ensures p in Changes(t, us, desired) <==> p.user in us && p.inbound in Moves(t, p.user, desired)
  {
    hide ActiveSet;
    InActiveSet(t, p.user, p.inbound);
    ActiveExists(t, p);
  }

  lemma {:induction false} SameSizeByInbound(c: set<Pair>, u: UserId)
    requires forall p :: p in c ==> p.user == u
    ensures |set p | p in c :: p.inbound| == |c|
    decreases c
  {
    if c != {} {
      var p :| p in c;
      SameSizeByInbound(c - {p}, u);
      assert (set q | q in c :: q.inbound) == (set q | q in c - {p} :: q.inbound) + {p.inbound};
    }
  }

  lemma {:induction false} SameSizeByUser(c: set<Pair>, i: InboundId)
    requires forall p :: p in c ==> p.inbound == i
    ensures |set p | p in c :: p.user| == |c|
    decreases c
  {
    if c != {} {
      var p :| p in c;
      SameSizeByUser(c - {p}, i);
      assert (set q | q in c :: q.user) == (set q | q in c - {p} :: q.user) + {p.user};
    }
  }

  lemma CountOfUser(t: Tables, us: set<UserId>, desired: set<InboundId>, u: UserId)
    ensures OfUser(Changes(t, us, desired), u) == if u in us then |Moves(t, u, desired)| else 0
  {
    hide Changes, Moves;
    var c := Changes(t, us, desired);
    var mine := set p | p in c && ByUser(u)(p);
    forall p ensures p in c <==> p.user in us && p.inbound in Moves(t, p.user, desired) {
      ChangesAreMoves(t, us, desired, p);
    }
    SameSizeByInbound(mine, u);
    var named := if u in us then Moves(t, u, desired) else {};
    forall i ensures i in (set p | p in mine :: p.inbound) <==> i in named {
      if i in named { assert Pair(u, i) in mine; }
    }
    assert (set p | p in mine :: p.inbound) == named;
  }

  lemma CountOfInbound(t: Tables, us: set<UserId>, desired: set<InboundId>, i: InboundId)
    ensures OfInbound(Changes(t, us, desired), i) == |Movers(t, us, desired, i)|
  {
    hide Changes, Moves;
    var c := Changes(t, us, desired);
    var mine := set p | p in c && ByInbound(i)(p);
    forall p ensures p in c <==> p.user in us && p.inbound in Moves(t, p.user, desired) {
      ChangesAreMoves(t, us, desired, p);
    }
    SameSizeByUser(mine, i);
    forall u ensures u in (set p | p in mine :: p.user) <==> u in Movers(t, us, desired, i) {
      if u in Movers(t, us, desired, i) { assert Pair(u, i) in mine; }
    }
    assert (set p | p in mine :: p.user) == Movers(t, us, desired, i);
  }

  /** A user's revision grows by the number of inbounds that come or go; other users do not change. */
  lemma UserRevisionsGrow(t: Tables, us: set<UserId>, desired: set<InboundId>, draw: Draw, now: Time, u: UserId)
    requires u in t.users
    ensures var users := Synced(t, us, desired, draw, now).users;
      var moves := if u in us then Moves(t, u, desired) else {};
      users.Keys == t.users.Keys
      && users[u] == t.users[u].(
           revision := t.users[u].revision + |moves|, needsApply := t.users[u].needsApply || moves != {})
  {
    hide OfUser, OfInbound, Moves, Changes, Assignments, Inbounds, Core;
    CountOfUser(t, us, desired, u);
  }

  /** An inbound's revision grows by the number of users for whom it comes or goes. */
  lemma InboundRevisionsGrow(t: Tables, us: set<UserId>, desired: set<InboundId>, draw: Draw, now: Time, i: InboundId)
    requires i in t.inbounds
    ensures var inbounds := Synced(t, us, desired, draw, now).inbounds;
      var movers := Movers(t, us, desired, i);
      inbounds.Keys == t.inbounds.Keys
      && inbounds[i] == t.inbounds[i].(
           revision := t.inbounds[i].revision + |movers|, needsApply := t.inbounds[i].needsApply || movers != {})
  {
    hide OfUser, OfInbound, Movers, Changes, Assignments, Users, Core;
    CountOfInbound(t, us, desired, i);
  }

  /** Every change is counted once: the desired revisions of the engines grow by as
      much, together, as the users' revisions. */
  lemma {:induction false} EnginesCountEveryChange(inbounds: map<InboundId, Inbound>, c: set<Pair>)
    requires forall p :: p in c ==> p.inbound in inbounds
    ensures OfEngine(inbounds, c, SING_BOX) + OfEngine(inbounds, c, XRAY) + OfEngine(inbounds, c, MTPROXY)
      + OfEngine(inbounds, c, AMNEZIAWG) == |c|
    decreases c
  {
    hide Count, OfInbound, OfUser;
    if c == {} {
      forall e: Engine ensures OfEngine(inbounds, c, e) == 0 { CountNothing(ByEngine(inbounds, e)); }
    } else {
      var p :| p in c;
      var rest := c - {p};
      EnginesCountEveryChange(inbounds, rest);
      assert rest + {p} == c;
      forall e: Engine
        ensures OfEngine(inbounds, c, e) ==
          OfEngine(inbounds, rest, e) + if inbounds[p.inbound].engine == e then 1 else 0
      {
        OneMore(rest, p, p, inbounds, e);
      }
    }
  }

  /** What comes or goes for some user at the inbounds of one engine. */
  function EngineMoves(t: Tables, us: set<UserId>, desired: set<InboundId>, e: Engine): set<Pair> {
    set u, i | u in us && i in t.inbounds && t.inbounds[i].engine == e && i in Moves(t, u, desired) :: Pair(u, i)
  }

  /** Each engine's desired revision grows by the number of times one of its inbounds comes or
      goes for a user. */
  lemma EngineRevisionsGrow(t: Tables, us: set<UserId>, desired: set<InboundId>, draw: Draw, now: Time, e: Engine)
    ensures var s := Synced(t, us, desired, draw, now);
      DesiredRevision(s.core, e) == DesiredRevision(t.core, e) + |EngineMoves(t, us, desired, e)|
      && AppliedRevision(s.core, e) == AppliedRevision(t.core, e)
  {
    hide Moves, Changes, Assignments, Inbounds, Users, OfEngine, EngineMoves;
    CountOfEngine(t, us, desired, e);
  }

  lemma CountOfEngine(t: Tables, us: set<UserId>, desired: set<InboundId>, e: Engine)
    ensures OfEngine(t.inbounds, Changes(t, us, desired), e) == |EngineMoves(t, us, desired, e)|
  {
    hide Changes, Moves;
    var c := Changes(t, us, desired);
    forall p ensures p in (set q | q in c && ByEngine(t.inbounds, e)(q)) <==> p in EngineMoves(t, us, desired, e) {
      ChangesAreMoves(t, us, desired, p);
    }
    assert (set q | q in c && ByEngine(t.inbounds, e)(q)) == EngineMoves(t, us, desired, e);
  }

  /** Leaving an inbound out and taking it back gives a new credential under the next version. */
  lemma ThereAndBack(t: Tables, us: set<UserId>, without: set<InboundId>, desired: set<InboundId>, draw: Draw,
      now: Time, draw2: Draw, now2: Time, p: Pair)
    requires p.user in us && Active(t, p) && p.inbound in desired - without
    ensures var s := Synced(Synced(t, us, without, draw, now), us, desired, draw2, now2);
      Active(s, p) && s.assignments[p].version == t.assignments[p].version + 1
        && s.assignments[p].credential == draw2(p)
  {
    ActiveAfter(t, us, without, draw, now, p);
    RowsAfter(t, us, without, draw, now, p);
  }
}
