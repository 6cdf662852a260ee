/** Whether a refresh can succeed for an admin who is no longer active: the gap between the
    read and the claim in `refresh` of apps/api/src/auth/auth.service.ts. */
module RefreshClaims {
  import opened Options
  import opened RefreshTokens

  predicate ActiveNow(s: State, admin: AdminId) { admin in s.db.admins && s.db.admins[admin].active }

  /** The refresh was read as good and its row can still be claimed; only time could be against it. */
  predicate Ripe(s: State, request: nat) {
    request in s.pending && s.pending[request].Found?
    && var read := s.pending[request];
       read.adminActive && Live(read.token) && read.token.replacedBy.None?
       && read.id in s.db.tokens && Live(s.db.tokens[read.id]) && s.db.tokens[read.id].replacedBy.None?
  }

  function AdminOf(s: State, request: nat): AdminId
    requires Ripe(s, request)
  {
    s.pending[request].token.admin
  }

  ghost predicate Succeeds(s: State, step: Step)
    requires Inv(s)
  {
    step.EndRefresh? && step.request in s.pending
    && FinishRefresh(s.db, s.pending[step.request], step.now, step.session).1.Success?
  }

  lemma SuccessIsRipe(s: State, step: Step)
    requires Inv(s) && Succeeds(s, step)
    ensures Ripe(s, step.request)
  {
    var read := s.pending[step.request];
    assert ReadInv(s.db.tokens, read);
    hide Inv, FinishRefresh, HashUsed;
    SuccessExactly(s.db, read, step.now, step.session);
  }

  /** Every successful refresh of the run is of an admin who is active at the claim. */
  ghost predicate AllActive(s: State, steps: seq<Step>)
    requires Inv(s)
    decreases |steps|
  {
    steps == [] ||
    (SuccessFound(s, steps[0]);
     (Succeeds(s, steps[0]) ==> ActiveNow(s, s.pending[steps[0].request].token.admin))
     && (Next(s, steps[0]).Some? ==>
           (NextKeepsInv(s, steps[0]);
            AllActive(Next(s, steps[0]).value, steps[1..]))))
  }

  lemma SuccessFound(s: State, step: Step)
    requires Inv(s)
    ensures Succeeds(s, step) ==> s.pending[step.request].Found?
  {
    if Succeeds(s, step) { SuccessIsRipe(s, step); }
  }

  /** In which states which admin may be deactivated. */
  type Guard = (State, AdminId) -> bool

  predicate Permits(guard: Guard, s: State, step: Step) {
    step.SetAdmin? && !step.value.active ==> guard(s, step.admin)
  }

  ghost predicate Guarded(s: State, steps: seq<Step>, guard: Guard)
    requires Inv(s)
    decreases |steps|
  {
    steps == [] ||
    (Permits(guard, s, steps[0])
     && (Next(s, steps[0]).Some? ==>
           (NextKeepsInv(s, steps[0]);
            Guarded(Next(s, steps[0]).value, steps[1..], guard))))
  }

  lemma {:induction false} RunMore(s: State, steps: seq<Step>, more: seq<Step>, guard: Guard)
    requires Inv(s) && Run(s, steps).Some?
    ensures Run(s, steps + more) == Run(Run(s, steps).value, more)
    ensures Guarded(s, steps + more, guard) <==> Guarded(s, steps, guard) && Guarded(Run(s, steps).value, more, guard)
    ensures AllActive(s, steps + more) <==> AllActive(s, steps) && AllActive(Run(s, steps).value, more)
    decreases |steps|
  {
    if steps == [] {
      assert steps + more == more;
    } else {
      NextKeepsInv(s, steps[0]);
      SuccessFound(s, steps[0]);
      hide Next, Inv, Permits, Succeeds;
      assert (steps + more)[1..] == steps[1..] + more;
      RunMore(Next(s, steps[0]).value, steps[1..], more, guard);
    }
  }

  lemma RunOne(s: State, step: Step, guard: Guard)
    requires Inv(s) && Next(s, step).Some?
    ensures Run(s, [step]) == Next(s, step)
    ensures Guarded(s, [step], guard) <==> Permits(guard, s, step)
    ensures AllActive(s, [step]) <==> (Succeeds(s, step) ==>
      s.pending[step.request].Found? && ActiveNow(s, s.pending[step.request].token.admin))
  {
    NextKeepsInv(s, step);
    SuccessFound(s, step);
    hide Next, Inv, Permits, Succeeds;
    assert [step][1..] == [];
  }

  // ---- a deactivated admin gets a token --------------------------------------------

  lemma {:induction false} Above(numbers: set<nat>) returns (n: nat)
    ensures forall x :: x in numbers ==> x < n
    decreases numbers
  {
    if numbers == {} {
      n := 0;
    } else {
      var x :| x in numbers;
      n := Above(numbers - {x});
      if n <= x { n := x + 1; }
      forall y | y in numbers ensures y < n {
        if y != x { assert y in numbers - {x}; }
      }
    }
  }

  lemma FreeKeys(tokens: map<TokenId, Token>) returns (session: Session)
    ensures session.id !in tokens && !HashUsed(tokens, session.hash)
  {
    var id := Above(tokens.Keys);
    var lengths := set i | i in tokens :: |tokens[i].hash|;
    var length := Above(lengths);
    session := Session(id, seq(length, _ => 'x'), 0, 0);
    forall i | i in tokens ensures tokens[i].hash != session.hash {
      assert |tokens[i].hash| in lengths;
    }
  }

  function Deactivates(admin: AdminId): Step { SetAdmin(admin, Admin(false, false)) }

  lemma ClaimSucceeds(db: Db, read: Read) returns (now: Time, session: Session)
    requires read.Found? && read.adminActive && Live(read.token) && read.token.replacedBy.None?
    requires read.id in db.tokens && Live(db.tokens[read.id]) && db.tokens[read.id].replacedBy.None?
    ensures FinishRefresh(db, read, now, session).1.Success?
  {
    hide FinishRefresh, HashUsed;
    session := FreeKeys(db.tokens);
    var row := db.tokens[read.id];
    now := (if row.expiresAt < read.token.expiresAt then row.expiresAt else read.token.expiresAt) - 1;
    SuccessExactly(db, read, now, session);
  }

  lemma DeactivationStep(s: State, admin: AdminId)
    requires Inv(s)
    ensures Next(s, Deactivates(admin)) == Some(s.(db := s.db.(admins := s.db.admins[admin := Admin(false, false)])))
  {
    hide Inv;
  }

  lemma EndingStep(s: State, end: Step)
    requires Inv(s) && end.EndRefresh? && end.request in s.pending
    ensures Next(s, end).Some?
  {
    hide ChainsInv, HashesUnique, RefreshedInv, FinishRefresh;
  }

  /** Whoever is deactivated while a refresh of theirs is ripe can still finish it. */
  lemma DeactivatedAdminGetsToken(s: State, request: nat) returns (end: Step)
    requires Inv(s) && Ripe(s, request)
    ensures Next(s, Deactivates(AdminOf(s, request))).Some?
    ensures var t := Next(s, Deactivates(AdminOf(s, request))).value;
            Inv(t) && end.EndRefresh? && end.request == request && Succeeds(t, end)
            && !ActiveNow(t, AdminOf(s, request))
            && t.pending == s.pending && Next(t, end).Some?
  {
    var admin, read := AdminOf(s, request), s.pending[request];
    DeactivationStep(s, admin);
    NextKeepsInv(s, Deactivates(admin));
    var t := Next(s, Deactivates(admin)).value;
    assert ReadInv(t.db.tokens, read);
    var now, session := ClaimSucceeds(t.db, read);
    end := EndRefresh(request, now, session);
    EndingStep(t, end);
    hide Inv, Next, FinishRefresh;
  }

  const SIGNED_UP := State(Db(map[1 := Admin(true, false)], map[]), map[], map[], [])
  const SESSION := Session(1, "t", 1, 100)
  const LOGGED_IN := State(Db(map[1 := Admin(true, false)], map[1 := NewToken(1, SESSION)]), map[], map[1 := [1]], [])
  const Reads: seq<Step> := [DoLogin(1, true, None, SESSION)] + [BeginRefresh(0, "t")]

  lemma LogsIn()
    ensures Inv(SIGNED_UP) && Next(SIGNED_UP, DoLogin(1, true, None, SESSION)) == Some(LOGGED_IN)
  {
  }

  lemma ReadsRipe()
    requires Inv(LOGGED_IN)
    ensures var t := Next(LOGGED_IN, BeginRefresh(0, "t")); t.Some? && Ripe(t.value, 0) && AdminOf(t.value, 0) == 1
  {
    assert HashUsed(LOGGED_IN.db.tokens, "t") by { assert 1 in LOGGED_IN.db.tokens; }
  }

  /** A run in which an admin logs in, is deactivated while a refresh is under way, and gets a token. */
  lemma DeactivationGoesUnseen() returns (end: Step)
    ensures Initial(SIGNED_UP)
    ensures Run(SIGNED_UP, Reads + [Deactivates(1)] + [end]).Some?
    ensures !AllActive(SIGNED_UP, Reads + [Deactivates(1)] + [end])
  {
    var guard := (s: State, admin: AdminId) => true;
    LogsIn();
    NextKeepsInv(SIGNED_UP, DoLogin(1, true, None, SESSION));
    ReadsRipe();
    hide Next, Inv, Ripe, AdminOf, Run, Guarded, AllActive, Succeeds;
    RunOne(SIGNED_UP, DoLogin(1, true, None, SESSION), guard);
    RunOne(LOGGED_IN, BeginRefresh(0, "t"), guard);
    RunMore(SIGNED_UP, [DoLogin(1, true, None, SESSION)], [BeginRefresh(0, "t")], guard);
    end := Unseen(SIGNED_UP, Reads, 0, guard);
  }

  /** The same after any run that leaves a refresh ripe. */
  lemma Unseen(s: State, steps: seq<Step>, request: nat, guard: Guard) returns (end: Step)
    requires Inv(s) && Run(s, steps).Some? && Ripe(Run(s, steps).value, request)
    ensures var admin := AdminOf(Run(s, steps).value, request);
            var all := steps + [Deactivates(admin)] + [end];
            Run(s, all).Some? && !AllActive(s, all)
            && (Guarded(s, steps, guard) && guard(Run(s, steps).value, admin) ==> Guarded(s, all, guard))
  {
    hide Next, Inv, Ripe, Run, Guarded, AllActive, Succeeds;
    var ripe := Run(s, steps).value;
    var admin := AdminOf(ripe, request);
    end := DeactivatedAdminGetsToken(ripe, request);
    var t := Next(ripe, Deactivates(admin)).value;
    RunOne(ripe, Deactivates(admin), guard);
    RunOne(t, end, guard);
    RunMore(s, steps, [Deactivates(admin)], guard);
    RunMore(s, steps + [Deactivates(admin)], [end], guard);
  }

  // ---- when every success is of an active admin ------------------------------------

  ghost predicate RipeActive(s: State) { forall request :: Ripe(s, request) ==> ActiveNow(s, AdminOf(s, request)) }

  /** Tokens are never brought back: what can be claimed now could be claimed before. */
  lemma ClaimableBefore(s: map<TokenId, Token>, t: map<TokenId, Token>, id: TokenId, newId: TokenId,
                        rotated: Option<TokenId>)
    requires OnlyRevokes(s, t) || Adds(s, t, newId, rotated)
    requires id in s && id in t && Live(t[id]) && t[id].replacedBy.None?
    ensures Live(s[id]) && s[id].replacedBy.None?
  {
  }

  /** What a step may do to the tables for a refresh to stay what it was. */
  ghost predicate Lasting(s: State, t: State, newId: TokenId, rotated: Option<TokenId>) {
    t.db.admins.Keys == s.db.admins.Keys
    && (forall a :: ActiveNow(t, a) <==> ActiveNow(s, a))
    && (t.db.tokens == s.db.tokens || OnlyRevokes(s.db.tokens, t.db.tokens)
        || Adds(s.db.tokens, t.db.tokens, newId, rotated))
  }

  lemma LastingRipe(s: State, t: State, newId: TokenId, rotated: Option<TokenId>, request: nat)
    requires Inv(s) && Lasting(s, t, newId, rotated) && Ripe(t, request)
    requires request in s.pending && s.pending[request] == t.pending[request]
    ensures Ripe(s, request) && AdminOf(s, request) == AdminOf(t, request)
  {
    var read := s.pending[request];
    assert ReadInv(s.db.tokens, read);
    hide Inv, OnlyRevokes, Adds;
    if t.db.tokens != s.db.tokens { ClaimableBefore(s.db.tokens, t.db.tokens, read.id, newId, rotated); }
  }

  lemma EndLasts(s: State, step: Step)
    requires Inv(s) && step.EndRefresh? && Next(s, step).Some?
    ensures var t := Next(s, step).value; var other := s.pending[step.request];
            t.pending == s.pending - {step.request}
            && Lasting(s, t, step.session.id, if other.Found? then Some(other.id) else None)
  {
    var other := s.pending[step.request];
    assert ReadInv(s.db.tokens, other);
    FinishRotatesOrRevokes(s.db, other, step.now, step.session);
    hide ChainsInv, HashesUnique, RefreshedInv, FinishRefresh, OnlyRevokes, Adds, ReadInv;
  }

  lemma LoginLasts(s: State, step: Step)
    requires Inv(s) && step.DoLogin? && Next(s, step).Some?
    ensures var t := Next(s, step).value; t.pending == s.pending && Lasting(s, t, step.session.id, None)
  {
    LoginAdds(s, step);
    hide Inv, Next, OnlyRevokes, Adds;
  }

  lemma LogoutKeepsAdmins(db: Db, admin: AdminId, presented: Option<Hash>, now: Time)
    requires HashesUnique(db.tokens)
    ensures AfterLogout(db, admin, presented, now).admins == db.admins
  {
    hide HashesUnique, HashUsed;
  }

  lemma LogoutLasts(s: State, step: Step)
    requires Inv(s) && step.DoLogout? && Next(s, step).Some?
    ensures var t := Next(s, step).value; t.pending == s.pending && Lasting(s, t, 0, None)
  {
    assert HashesUnique(s.db.tokens);
    LogoutOnlyRevokes(s.db, step.admin, step.presented, step.now);
    LogoutKeepsAdmins(s.db, step.admin, step.presented, step.now);
    hide Inv, HashesUnique, OnlyRevokes, Adds, AfterLogout;
  }

  lemma DisableTotpLasts(s: State, step: Step)
    requires Inv(s) && step.DoDisableTotp? && Next(s, step).Some?
    ensures var t := Next(s, step).value; t.pending == s.pending && Lasting(s, t, 0, None)
  {
    var db := AfterDisableTotp(s.db, step.admin, step.passwordValid, step.codeValid, step.now);
    DisableTotpOnlyRevokes(s.db, step.admin, step.passwordValid, step.codeValid, step.now);
    assert db.admins == s.db.admins
      || (step.admin in s.db.admins
          && db.admins == s.db.admins[step.admin := s.db.admins[step.admin].(totp := false)]);
    hide Inv, OnlyRevokes, Adds, AfterDisableTotp;
  }

  /** The steps other than `SetAdmin` leave activity alone and make no other refresh ripe. */
  lemma RipeBefore(s: State, step: Step, request: nat)
    requires Inv(s) && Next(s, step).Some? && Ripe(Next(s, step).value, request)
    requires !(step.BeginRefresh? && step.request == request)
    ensures var t := Next(s, step).value;
            Ripe(s, request) && AdminOf(s, request) == AdminOf(t, request)
            && (!step.SetAdmin? ==> forall a :: ActiveNow(t, a) <==> ActiveNow(s, a))
  {
    var t := Next(s, step).value;
    match step {
      case DoLogin(_, _, _, session) =>
        LoginLasts(s, step);
        LastingRipe(s, t, session.id, None, request);
      case EndRefresh(r, now, session) =>
        EndLasts(s, step);
        LastingRipe(s, t, session.id, if s.pending[r].Found? then Some(s.pending[r].id) else None, request);
      case DoLogout(_, _, _) =>
        LogoutLasts(s, step);
        LastingRipe(s, t, 0, None, request);
      case DoDisableTotp(_, _, _, _) =>
        DisableTotpLasts(s, step);
        LastingRipe(s, t, 0, None, request);
      case SetAdmin(_, _) => TablesKept(s, step);
      case BeginRefresh(_, _) => TablesKept(s, step);
    }
    hide Inv, Next;
  }

  lemma TablesKept(s: State, step: Step)
    requires Inv(s) && Next(s, step).Some? && (step.SetAdmin? || step.BeginRefresh?)
    ensures var t := Next(s, step).value;
            t.db.tokens == s.db.tokens
            && (step.SetAdmin? ==> t.pending == s.pending)
            && (step.BeginRefresh? ==> t.db == s.db && t.pending - {step.request} == s.pending - {step.request})
  {
    hide ChainsInv, RefreshedInv, ReadToken;
  }

  lemma LoginAdds(s: State, step: Step)
    requires Inv(s) && step.DoLogin? && Next(s, step).Some?
    ensures var t := Next(s, step).value;
            t.db.admins == s.db.admins && t.pending == s.pending
            && (OnlyRevokes(s.db.tokens, t.db.tokens) || Adds(s.db.tokens, t.db.tokens, step.session.id, None))
  {
    hide HashUsed, ChainsInv, HashesUnique, RefreshedInv;
  }

  lemma ReadIsActive(s: State, request: nat, hash: Hash)
    requires Inv(s) && Ripe(Next(s, BeginRefresh(request, hash)).value, request)
    ensures var t := Next(s, BeginRefresh(request, hash)).value; ActiveNow(t, AdminOf(t, request))
  {
    hide HashUsed, ChainsInv, RefreshedInv;
  }

  lemma RipeActiveKept(s: State, step: Step)
    requires Inv(s) && RipeActive(s) && Next(s, step).Some?
    requires step.SetAdmin? && !step.value.active ==>
               forall request :: Ripe(s, request) ==> AdminOf(s, request) != step.admin
    ensures RipeActive(Next(s, step).value)
  {
    var t := Next(s, step).value;
    assert step.SetAdmin? ==> t.db.admins == s.db.admins[step.admin := step.value];
    hide Inv, Next, Ripe, AdminOf;
    forall request | Ripe(t, request) ensures ActiveNow(t, AdminOf(t, request)) {
      if step.BeginRefresh? && step.request == request {
        ReadIsActive(s, request, step.hash);
      } else {
        RipeBefore(s, step, request);
      }
    }
  }

  /** The guard lets a run come to a state where it permits deactivating an admin while a
      refresh of theirs is ripe. */
  ghost predicate BadMoment(guard: Guard, s: State, steps: seq<Step>, request: nat) {
    Initial(s) && Run(s, steps).Some? && Guarded(s, steps, guard) && Ripe(Run(s, steps).value, request)
    && guard(Run(s, steps).value, AdminOf(Run(s, steps).value, request))
  }

  ghost predicate SparesRipe(guard: Guard) { forall s, steps, request :: !BadMoment(guard, s, steps, request) }

  lemma {:induction false} AllActiveFrom(s: State, before: seq<Step>, steps: seq<Step>, guard: Guard)
    requires Initial(s) && Run(s, before).Some? && Guarded(s, before, guard) && SparesRipe(guard)
    requires RipeActive(Run(s, before).value) && Run(Run(s, before).value, steps).Some?
    requires Guarded(Run(s, before).value, steps, guard)
    ensures AllActive(Run(s, before).value, steps)
    decreases |steps|
  {
    if steps != [] {
      var now, step := Run(s, before).value, steps[0];
      NextKeepsInv(now, step);
      SuccessFound(now, step);
      if Succeeds(now, step) { SuccessIsRipe(now, step); }
      assert Inv(s);
      hide Inv, Next, Ripe, AdminOf, Succeeds, Initial;
      forall request | Ripe(now, request) && step.SetAdmin? && !step.value.active
        ensures AdminOf(now, request) != step.admin
      {
        assert !BadMoment(guard, s, before, request);
      }
      RipeActiveKept(now, step);
      RunOne(now, step, guard);
      RunMore(s, before, [step], guard);
      AllActiveFrom(s, before + [step], steps[1..], guard);
      AdminOfIs(now);
    }
  }

  lemma AdminOfIs(s: State)
    ensures forall request :: Ripe(s, request) ==> AdminOf(s, request) == s.pending[request].token.admin
  {
  }

  /** If the guard lets the run come about, its successes are of active admins. */
  ghost predicate Honest(guard: Guard, s: State, steps: seq<Step>) {
    Initial(s) && Run(s, steps).Some? && Guarded(s, steps, guard) ==> AllActive(s, steps)
  }

  /** Every success of every run is of an admin active at the claim if and only if nobody may
      be deactivated while a refresh of theirs is ripe. */
  lemma SuccessesAreActiveExactly(guard: Guard)
    ensures SparesRipe(guard) <==> forall s, steps :: Honest(guard, s, steps)
  {
    hide Honest, BadMoment;
    if SparesRipe(guard) {
      forall s, steps ensures Honest(guard, s, steps) { SparingIsHonest(guard, s, steps); }
    } else {
      var s, steps, request :| BadMoment(guard, s, steps, request);
      var all := BadMomentMisleads(guard, s, steps, request);
    }
  }

  lemma BadMomentMisleads(guard: Guard, s: State, steps: seq<Step>, request: nat) returns (all: seq<Step>)
    requires BadMoment(guard, s, steps, request)
    ensures !Honest(guard, s, all)
  {
    InitialHasInv(s);
    hide Next, Ripe, AdminOf, Run, Guarded, AllActive, Succeeds, Inv, Initial;
    var end := Unseen(s, steps, request, guard);
    all := steps + [Deactivates(AdminOf(Run(s, steps).value, request))] + [end];
  }

  lemma InitialHasInv(s: State)
    requires Initial(s)
    ensures Inv(s) && RipeActive(s)
  {
  }

  lemma SparingIsHonest(guard: Guard, s: State, steps: seq<Step>)
    requires SparesRipe(guard)
    ensures Honest(guard, s, steps)
  {
    if Initial(s) && Run(s, steps).Some? && Guarded(s, steps, guard) {
      InitialHasInv(s);
      assert Run(s, []) == Some(s) && Guarded(s, [], guard);
      AllActiveFrom(s, [], steps, guard);
    }
    hide Next, Inv, BadMoment, RipeActive;
  }
}
