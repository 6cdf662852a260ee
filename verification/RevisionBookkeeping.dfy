/** Inbound revisions, the needsApply flag and local applies:
    apps/api/src/inbounds/inbounds.service.ts (mutations),
    apps/api/src/core/core-state.loader.ts (`load`) and
    apps/api/src/core/core-apply.service.ts (`applyLocal`, `applyEngine`).

    Mutations are transactions that interleave freely with the steps of an apply.
    Applies run under a lock whose lease may expire while its holder still works. */
module RevisionBookkeeping {
  import opened Options
  import opened Engines

  type InboundId = nat
  type ApplyId = nat

  /** What an enabled inbound contributes to its engine's config. */
  type Body = string
  type Config = map<InboundId, Body>

  const ENGINES: seq<Engine> := [SING_BOX, XRAY, MTPROXY, AMNEZIAWG]

  datatype Row = Row(engine: Engine, enabled: bool, body: Body, revision: nat, needsApply: bool)

  /** `renderConfig` of what `load` selects for one engine. */
  function Render(rows: map<InboundId, Row>, engine: Engine): Config {
    map id | id in rows && rows[id].engine == engine && rows[id].enabled :: rows[id].body
  }

  /** `inboundRevisions` covers disabled inbounds too. */
  function Revisions(rows: map<InboundId, Row>, engine: Engine): map<InboundId, nat> {
    map id | id in rows && rows[id].engine == engine :: rows[id].revision
  }

  datatype Snapshot = Snapshot(config: Config, revisions: map<InboundId, nat>)

  datatype Outcome = Succeeded(snapshot: Snapshot) | RolledBack | Failed

  datatype Phase =
    | Between
    | Loaded(snapshot: Snapshot)
    | Replacing(snapshot: Snapshot, previous: Config)
    | Replaced(snapshot: Snapshot, previous: Config)

  /** An apply in progress: `outcomes[i]` is the outcome of `ENGINES[i]`, the next
      engine is `ENGINES[|outcomes|]`. `lost` is what `assertOwned` looks at: a renewal
      has seen that the lease is lost. */
  datatype Apply = Apply(outcomes: seq<Outcome>, phase: Phase, lost: bool)

  /** `used` holds every id ever given to an inbound (ids are random UUIDs). */
  datatype State = State(
    rows: map<InboundId, Row>,
    used: set<InboundId>,
    disk: map<Engine, Config>,
    applies: map<ApplyId, Apply>,
    lock: Option<ApplyId>)

  datatype Status = SUCCEEDED | PARTIAL_SUCCEEDED | ROLLED_BACK | FAILED

  function CountSucceeded(outcomes: seq<Outcome>): nat {
    if outcomes == [] then 0 else (if outcomes[0].Succeeded? then 1 else 0) + CountSucceeded(outcomes[1..])
  }

  function CountRolledBack(outcomes: seq<Outcome>): nat {
    if outcomes == [] then 0 else (if outcomes[0].RolledBack? then 1 else 0) + CountRolledBack(outcomes[1..])
  }

  /** `aggregateApplyStatus` */
  function AggregateStatus(outcomes: seq<Outcome>): Status {
    var succeeded := CountSucceeded(outcomes);
    if |outcomes| == 0 then FAILED
    else if succeeded == |outcomes| then SUCCEEDED
    else if succeeded > 0 then PARTIAL_SUCCEEDED
    else if CountRolledBack(outcomes) == |outcomes| then ROLLED_BACK
    else FAILED
  }

  /** `markInboundRevisionsApplied`: the flag is cleared only where the revision still matches. */
  function MarkApplied(rows: map<InboundId, Row>, revisions: map<InboundId, nat>): map<InboundId, Row> {
    map id | id in rows ::
      if id in revisions && revisions[id] == rows[id].revision then rows[id].(needsApply := false) else rows[id]
  }

  function MarkOutcomes(rows: map<InboundId, Row>, outcomes: seq<Outcome>): map<InboundId, Row> {
    if outcomes == [] then rows
    else
      var marked := if outcomes[0].Succeeded? then MarkApplied(rows, outcomes[0].snapshot.revisions) else rows;
      MarkOutcomes(marked, outcomes[1..])
  }

  // ---- steps ----------------------------------------------------------------

  datatype Step =
    | Create(id: InboundId, engine: Engine, enabled: bool, body: Body)
    | Update(id: InboundId, enabled: bool, body: Body)
    | SetEnabled(id: InboundId, enabled: bool)
    | ChangeAssignment(id: InboundId, body: Body)
    | Remove(id: InboundId)
    | Begin(a: ApplyId)
    | SeeLoss(a: ApplyId)
    | Load(a: ApplyId)
    | EngineFails(a: ApplyId)
    | ReadPrevious(a: ApplyId)
    | Replace(a: ApplyId, took: bool, threw: bool)
    | Verified(a: ApplyId)
    | Restore(a: ApplyId, took: bool, verified: bool)
    | Commit(a: ApplyId)
    | Abort(a: ApplyId)
    | LockExpires

  /** Every mutation bumps the revision and sets the flag in one transaction. */
  function Mutate(s: State, id: InboundId, enabled: bool, body: Body): State
    requires id in s.rows
  {
    var row := s.rows[id];
    s.(rows := s.rows[id := Row(row.engine, enabled, body, row.revision + 1, true)])
  }

  function Mutation(s: State, step: Step): Option<State> {
    match step
    case Create(id, engine, enabled, body) =>
      if id in s.used then None
      else Some(s.(rows := s.rows[id := Row(engine, enabled, body, 1, true)], used := s.used + {id}))
    case Update(id, enabled, body) =>
      if id in s.rows then Some(Mutate(s, id, enabled, body)) else None
    case SetEnabled(id, enabled) =>
      if id in s.rows then Some(Mutate(s, id, enabled, s.rows[id].body)) else None
    case ChangeAssignment(id, body) =>
      if id in s.rows then Some(Mutate(s, id, s.rows[id].enabled, body)) else None
    case Remove(id) =>
      if id in s.rows then Some(s.(rows := s.rows - {id})) else None
    case _ => None
  }

  function WithPhase(s: State, a: ApplyId, phase: Phase): State
    requires a in s.applies
  {
    s.(applies := s.applies[a := s.applies[a].(phase := phase)])
  }

  function WithOutcome(s: State, a: ApplyId, outcome: Outcome): State
    requires a in s.applies
  {
    s.(applies := s.applies[a := s.applies[a].(outcomes := s.applies[a].outcomes + [outcome], phase := Between)])
  }

  function Ended(s: State, a: ApplyId): State {
    s.(applies := s.applies - {a}, lock := if s.lock == Some(a) then None else s.lock)
  }

  function ApplyStep(s: State, step: Step): Option<State> {
    match step
    case Begin(a) =>
      if s.lock.Some? || a in s.applies then None
      else Some(s.(applies := s.applies[a := Apply([], Between, false)], lock := Some(a)))
    case SeeLoss(a) =>
      if a in s.applies then Some(s.(applies := s.applies[a := s.applies[a].(lost := true)])) else None
    case Load(a) =>
      // `assertOwned` before each engine; when it throws the apply ends
      if a !in s.applies || !s.applies[a].phase.Between? || s.applies[a].lost || |s.applies[a].outcomes| >= |ENGINES|
      then None
      else
        var engine := ENGINES[|s.applies[a].outcomes|];
        Some(WithPhase(s, a, Loaded(Snapshot(Render(s.rows, engine), Revisions(s.rows, engine)))))
    case EngineFails(a) =>
      // load, render, validation or a write before the replace failed
      if a !in s.applies || |s.applies[a].outcomes| >= |ENGINES| || s.applies[a].phase.Replaced? then None
      else Some(WithOutcome(s, a, Failed))
    case ReadPrevious(a) =>
      // `assertOwned` before the provider's `apply`; when it throws the engine fails
      if a !in s.applies || !s.applies[a].phase.Loaded? || s.applies[a].lost || |s.applies[a].outcomes| >= |ENGINES|
      then None
      else
        var engine := ENGINES[|s.applies[a].outcomes|];
        if engine !in s.disk then None
        else Some(WithPhase(s, a, Replacing(s.applies[a].phase.snapshot, s.disk[engine])))
    case Replace(a, took, threw) =>
      if a !in s.applies || !s.applies[a].phase.Replacing? || |s.applies[a].outcomes| >= |ENGINES| || (!took && !threw)
      then None
      else
        var phase := s.applies[a].phase;
        var engine := ENGINES[|s.applies[a].outcomes|];
        var t := if took then s.(disk := s.disk[engine := phase.snapshot.config]) else s;
        Some(if threw then WithOutcome(t, a, Failed) else WithPhase(t, a, Replaced(phase.snapshot, phase.previous)))
    case Verified(a) =>
      if a !in s.applies || !s.applies[a].phase.Replaced? then None
      // `assertOwned` after it
      else Some(WithOutcome(s, a, if s.applies[a].lost then Failed else Succeeded(s.applies[a].phase.snapshot)))
    case Restore(a, took, verified) =>
      if a !in s.applies || !s.applies[a].phase.Replaced? || |s.applies[a].outcomes| >= |ENGINES| || (verified && !took)
      then None
      else
        var engine := ENGINES[|s.applies[a].outcomes|];
        var t := if took then s.(disk := s.disk[engine := s.applies[a].phase.previous]) else s;
        Some(WithOutcome(t, a, if verified && !s.applies[a].lost then RolledBack else Failed))
    case Commit(a) =>
      if a !in s.applies || |s.applies[a].outcomes| != |ENGINES| then None
      else
        var outcomes := s.applies[a].outcomes;
        var status := AggregateStatus(outcomes);
        var t := if status.FAILED? || status.ROLLED_BACK? then s else s.(rows := MarkOutcomes(s.rows, outcomes));
        Some(Ended(t, a))
    case Abort(a) =>
      if a in s.applies then Some(Ended(s, a)) else None
    case LockExpires =>
      if s.lock.Some? then Some(s.(lock := None)) else None
    case _ => None
  }

  function Next(s: State, step: Step): Option<State> {
    var t := Mutation(s, step);
    if t.Some? then t else ApplyStep(s, step)
  }

  function Run(s: State, steps: seq<Step>): Option<State>
    decreases |steps|
  {
    if steps == [] then Some(s)
    else
      var t := Next(s, steps[0]);
      if t.None? then None else Run(t.value, steps[1..])
  }

  /** An empty database, any config files, no apply. */
  predicate Initial(s: State) {
    s.rows == map[] && s.applies == map[] && s.lock.None?
  }

  // ---- writes of overtaken applies ---------------------------------------------

  /** The apply that began last. */
  function Newest(newest: Option<ApplyId>, step: Step): Option<ApplyId> {
    if step.Begin? then Some(step.a) else newest
  }

  /** An apply writes a config file after another one has begun. */
  predicate StaleWrite(newest: Option<ApplyId>, step: Step) {
    ((step.Replace? && step.took) || (step.Restore? && step.took)) && newest != Some(step.a)
  }

  predicate NoStaleWrites(steps: seq<Step>, newest: Option<ApplyId>)
    decreases |steps|
  {
    steps == [] || (!StaleWrite(newest, steps[0]) && NoStaleWrites(steps[1..], Newest(newest, steps[0])))
  }

  // ---- invariant ------------------------------------------------------------

  /** `config` shows the row as it is now: its body when enabled, nothing when disabled. */
  predicate Shows(config: Config, id: InboundId, row: Row) {
    if row.enabled then id in config && config[id] == row.body else id !in config
  }

  /** Every row whose flag is clear is shown by the config of its engine. */
  predicate CleanOnDisk(rows: map<InboundId, Row>, engine: Engine, config: Config) {
    forall id :: id in rows && rows[id].engine == engine && !rows[id].needsApply ==> Shows(config, id, rows[id])
  }

  /** `config` shows every row that is still at its revision of a snapshot. */
  predicate Covers(config: Config, rows: map<InboundId, Row>, engine: Engine, revisions: map<InboundId, nat>) {
    forall id :: id in rows && id in revisions ==>
      && rows[id].engine == engine
      && revisions[id] <= rows[id].revision
      && (revisions[id] == rows[id].revision ==> Shows(config, id, rows[id]))
  }

  /** The part of a state an apply looks at. */
  datatype World = World(rows: map<InboundId, Row>, used: set<InboundId>, disk: map<Engine, Config>)

  function WorldOf(s: State): World { World(s.rows, s.used, s.disk) }

  /** The snapshot an apply has on disk for engine `n`, as far as it knows. */
  function WrittenAt(apply: Apply, n: nat): Option<Snapshot> {
    if n < |apply.outcomes| then
      if apply.outcomes[n].Succeeded? then Some(apply.outcomes[n].snapshot) else None
    else if n == |apply.outcomes| && apply.phase.Replaced? then Some(apply.phase.snapshot)
    else None
  }

  /** The file shows what is still current of the snapshot, whoever wrote it since. */
  predicate Written(w: World, engine: Engine, revisions: map<InboundId, nat>) {
    revisions.Keys <= w.used && engine in w.disk && Covers(w.disk[engine], w.rows, engine, revisions)
  }

  predicate WritesInv(w: World, applies: map<ApplyId, Apply>) {
    forall a, n :: a in applies && 0 <= n < |ENGINES| && WrittenAt(applies[a], n).Some? ==>
      Written(w, ENGINES[n], WrittenAt(applies[a], n).value.revisions)
  }

  /** What apply `a` may write to the file of engine `n`: a config that shows the clean rows
      and what is still current of the others' snapshots. */
  predicate Fit(w: World, applies: map<ApplyId, Apply>, a: ApplyId, n: nat, config: Config)
    requires n < |ENGINES|
  {
    CleanOnDisk(w.rows, ENGINES[n], config)
    && forall b :: b in applies && b != a && WrittenAt(applies[b], n).Some? ==>
         Covers(config, w.rows, ENGINES[n], WrittenAt(applies[b], n).value.revisions)
  }

  predicate Shaped(apply: Apply) {
    |apply.outcomes| <= |ENGINES| && (!apply.phase.Between? ==> |apply.outcomes| < |ENGINES|)
  }

  /** The apply that began last holds configs it may write. */
  predicate NewestInv(w: World, applies: map<ApplyId, Apply>, a: ApplyId) {
    a in applies && Shaped(applies[a]) && !applies[a].phase.Between? ==>
      var phase, n := applies[a].phase, |applies[a].outcomes|;
      && phase.snapshot.revisions.Keys <= w.used
      && Covers(phase.snapshot.config, w.rows, ENGINES[n], phase.snapshot.revisions)
      && Fit(w, applies, a, n, phase.snapshot.config)
      && (phase.Replacing? || phase.Replaced? ==> Fit(w, applies, a, n, phase.previous))
  }

  /** An inbound that needs no apply is in its engine's config file as its row says. */
  predicate OnDisk(w: World) {
    forall id :: id in w.rows && !w.rows[id].needsApply ==>
      w.rows[id].engine in w.disk && Shows(w.disk[w.rows[id].engine], id, w.rows[id])
  }

  predicate Inv(s: State, newest: Option<ApplyId>) {
    && s.rows.Keys <= s.used
    && OnDisk(WorldOf(s))
    && (forall a :: a in s.applies ==> Shaped(s.applies[a]))
    && WritesInv(WorldOf(s), s.applies)
    && (newest.Some? ==> NewestInv(WorldOf(s), s.applies, newest.value))
  }

  // ---- mutations --------------------------------------------------------------

  /** A mutation leaves a row alone, bumps its revision and flags it, drops it, or adds a
      flagged row under an id never used before. */
  predicate Advanced(s: World, t: World) {
    && s.rows.Keys <= s.used <= t.used && t.rows.Keys <= t.used && s.disk == t.disk
    && forall id :: id in t.rows ==>
         || (id in s.rows && t.rows[id] == s.rows[id])
         || (id in s.rows && t.rows[id].engine == s.rows[id].engine
             && t.rows[id].revision > s.rows[id].revision && t.rows[id].needsApply)
         || (id !in s.used && t.rows[id].needsApply)
  }

  lemma MutationAdvances(s: State, step: Step)
    requires s.rows.Keys <= s.used && Mutation(s, step).Some?
    ensures var t := Mutation(s, step).value;
            Advanced(WorldOf(s), WorldOf(t)) && t.applies == s.applies && t.lock == s.lock
  {
  }

  lemma CoversAdvances(s: World, t: World, config: Config, engine: Engine, revisions: map<InboundId, nat>)
    requires Advanced(s, t) && revisions.Keys <= s.used && Covers(config, s.rows, engine, revisions)
    ensures Covers(config, t.rows, engine, revisions)
  {
  }

  lemma FitAdvances(s: World, t: World, applies: map<ApplyId, Apply>, a: ApplyId, n: nat, config: Config)
    requires Advanced(s, t) && n < |ENGINES| && WritesInv(s, applies) && Fit(s, applies, a, n, config)
    ensures Fit(t, applies, a, n, config)
  {
    assert CleanOnDisk(t.rows, ENGINES[n], config);
    forall b | b in applies && b != a && WrittenAt(applies[b], n).Some?
      ensures Covers(config, t.rows, ENGINES[n], WrittenAt(applies[b], n).value.revisions)
    {
      assert Written(s, ENGINES[n], WrittenAt(applies[b], n).value.revisions);
      CoversAdvances(s, t, config, ENGINES[n], WrittenAt(applies[b], n).value.revisions);
    }
  }

  lemma WritesAdvance(s: World, t: World, applies: map<ApplyId, Apply>)
    requires Advanced(s, t) && WritesInv(s, applies)
    ensures WritesInv(t, applies)
  {
    hide Covers, WrittenAt;
    forall a, n | a in applies && 0 <= n < |ENGINES| && WrittenAt(applies[a], n).Some?
      ensures Written(t, ENGINES[n], WrittenAt(applies[a], n).value.revisions)
    {
      CoversAdvances(s, t, s.disk[ENGINES[n]], ENGINES[n], WrittenAt(applies[a], n).value.revisions);
    }
  }

  lemma MutationKeepsInv(s: State, step: Step, newest: Option<ApplyId>)
    requires Inv(s, newest) && Mutation(s, step).Some?
    ensures Inv(Mutation(s, step).value, newest)
  {
    hide Mutation, Covers, CleanOnDisk, WrittenAt, Fit, WritesInv;
    var t := Mutation(s, step).value;
    MutationAdvances(s, step);
    WritesAdvance(WorldOf(s), WorldOf(t), s.applies);
    if newest.Some? && newest.value in s.applies && !s.applies[newest.value].phase.Between? {
      var a := newest.value;
      var phase, n := s.applies[a].phase, |s.applies[a].outcomes|;
      CoversAdvances(WorldOf(s), WorldOf(t), phase.snapshot.config, ENGINES[n], phase.snapshot.revisions);
      FitAdvances(WorldOf(s), WorldOf(t), s.applies, a, n, phase.snapshot.config);
      if phase.Replacing? || phase.Replaced? { FitAdvances(WorldOf(s), WorldOf(t), s.applies, a, n, phase.previous); }
    }
  }

  // ---- steps of an apply ------------------------------------------------------

  /** `apply` knows of no file that `before` did not know of. */
  predicate NothingNew(before: Apply, apply: Apply) {
    forall n :: 0 <= n < |ENGINES| ==> WrittenAt(apply, n) == WrittenAt(before, n) || WrittenAt(apply, n).None?
  }

  /** An apply moves on without writing. */
  lemma QuietKeepsInv(s: State, a: ApplyId, apply: Apply, newest: Option<ApplyId>)
    requires Inv(s, newest) && a in s.applies && Shaped(apply) && NothingNew(s.applies[a], apply)
    requires newest == Some(a) ==> NewestInv(WorldOf(s), s.applies[a := apply], a)
    ensures Inv(s.(applies := s.applies[a := apply]), newest)
  {
    hide Covers, CleanOnDisk, WrittenAt;
  }

  /** Ending an engine without success, or seeing the loss, makes nothing new. */
  lemma EndsWithout(apply: Apply, outcome: Outcome)
    requires Shaped(apply) && |apply.outcomes| < |ENGINES|
    requires outcome.Succeeded? ==> apply.phase.Replaced? && outcome.snapshot == apply.phase.snapshot
    ensures var ended := apply.(outcomes := apply.outcomes + [outcome], phase := Between);
            Shaped(ended) && NothingNew(apply, ended)
  {
  }

  /** A fresh snapshot shows every row, and so whatever is still current of any other. */
  lemma SnapshotIsFit(w: World, applies: map<ApplyId, Apply>, a: ApplyId, n: nat)
    requires n < |ENGINES| && WritesInv(w, applies)
    ensures Fit(w, applies, a, n, Render(w.rows, ENGINES[n]))
    ensures Covers(Render(w.rows, ENGINES[n]), w.rows, ENGINES[n], Revisions(w.rows, ENGINES[n]))
  {
    forall b | b in applies && WrittenAt(applies[b], n).Some?
      ensures Covers(Render(w.rows, ENGINES[n]), w.rows, ENGINES[n], WrittenAt(applies[b], n).value.revisions)
    {
      assert Written(w, ENGINES[n], WrittenAt(applies[b], n).value.revisions);
    }
  }

  /** What is on disk may be written again. */
  lemma FileIsFit(w: World, applies: map<ApplyId, Apply>, a: ApplyId, n: nat)
    requires n < |ENGINES| && WritesInv(w, applies) && OnDisk(w) && ENGINES[n] in w.disk
    ensures Fit(w, applies, a, n, w.disk[ENGINES[n]])
  {
    hide Covers, WrittenAt;
    forall b | b in applies && WrittenAt(applies[b], n).Some?
      ensures Covers(w.disk[ENGINES[n]], w.rows, ENGINES[n], WrittenAt(applies[b], n).value.revisions)
    {
      assert Written(w, ENGINES[n], WrittenAt(applies[b], n).value.revisions);
    }
  }

  /** Fitness does not depend on the apply's own record. */
  lemma FitIsOfOthers(w: World, applies: map<ApplyId, Apply>, a: ApplyId, apply: Apply, n: nat, config: Config)
    requires n < |ENGINES|
    ensures Fit(w, applies[a := apply], a, n, config) == Fit(w, applies, a, n, config)
  {
    hide Covers, CleanOnDisk, WrittenAt;
    var later := applies[a := apply];
    assert forall b :: b != a ==> (b in later <==> b in applies) && (b in applies ==> later[b] == applies[b]);
    if Fit(w, applies, a, n, config) { assert Fit(w, later, a, n, config); }
    if Fit(w, later, a, n, config) {
      forall b | b in applies && b != a && WrittenAt(applies[b], n).Some?
        ensures Covers(config, w.rows, ENGINES[n], WrittenAt(applies[b], n).value.revisions)
      {
        assert b in later && later[b] == applies[b];
      }
    }
  }

  lemma LoadKeepsInv(s: State, a: ApplyId, newest: Option<ApplyId>)
    requires Inv(s, newest) && ApplyStep(s, Load(a)).Some?
    ensures Inv(ApplyStep(s, Load(a)).value, newest)
  {
    var n := |s.applies[a].outcomes|;
    var snapshot := Snapshot(Render(s.rows, ENGINES[n]), Revisions(s.rows, ENGINES[n]));
    var apply := s.applies[a].(phase := Loaded(snapshot));
    SnapshotIsFit(WorldOf(s), s.applies, a, n);
    FitIsOfOthers(WorldOf(s), s.applies, a, apply, n, snapshot.config);
    assert NothingNew(s.applies[a], apply);
    assert ApplyStep(s, Load(a)).value == s.(applies := s.applies[a := apply]);
    hide Inv, Covers, CleanOnDisk, WrittenAt, Fit, Render, Revisions, ApplyStep, NothingNew;
    assert snapshot.revisions.Keys <= s.used by { RevisionsAreUsed(s, newest, ENGINES[n]); }
    QuietKeepsInv(s, a, apply, newest);
  }

  lemma RevisionsAreUsed(s: State, newest: Option<ApplyId>, engine: Engine)
    requires Inv(s, newest)
    ensures Revisions(s.rows, engine).Keys <= s.used
  {
  }

  lemma ReadPreviousKeepsInv(s: State, a: ApplyId, newest: Option<ApplyId>)
    requires Inv(s, newest) && ApplyStep(s, ReadPrevious(a)).Some?
    ensures Inv(ApplyStep(s, ReadPrevious(a)).value, newest)
  {
    var n := |s.applies[a].outcomes|;
    var apply := s.applies[a].(phase := Replacing(s.applies[a].phase.snapshot, s.disk[ENGINES[n]]));
    FileIsFit(WorldOf(s), s.applies, a, n);
    FitIsOfOthers(WorldOf(s), s.applies, a, apply, n, s.disk[ENGINES[n]]);
    FitIsOfOthers(WorldOf(s), s.applies, a, apply, n, apply.phase.snapshot.config);
    assert NothingNew(s.applies[a], apply);
    assert ApplyStep(s, ReadPrevious(a)).value == s.(applies := s.applies[a := apply]);
    hide Covers, CleanOnDisk, WrittenAt, Fit, ApplyStep, NothingNew, WritesInv, OnDisk;
    QuietKeepsInv(s, a, apply, newest);
  }

  lemma SeeLossKeepsInv(s: State, a: ApplyId, newest: Option<ApplyId>)
    requires Inv(s, newest) && ApplyStep(s, SeeLoss(a)).Some?
    ensures Inv(ApplyStep(s, SeeLoss(a)).value, newest)
  {
    var apply := s.applies[a].(lost := true);
    assert NothingNew(s.applies[a], apply);
    assert ApplyStep(s, SeeLoss(a)).value == s.(applies := s.applies[a := apply]);
    if newest == Some(a) && !apply.phase.Between? {
      var n := |apply.outcomes|;
      FitIsOfOthers(WorldOf(s), s.applies, a, apply, n, apply.phase.snapshot.config);
      if !apply.phase.Loaded? { FitIsOfOthers(WorldOf(s), s.applies, a, apply, n, apply.phase.previous); }
    }
    hide Covers, CleanOnDisk, WrittenAt, Fit, ApplyStep, NothingNew, WritesInv, OnDisk;
    QuietKeepsInv(s, a, apply, newest);
  }

  /** An engine ends without a write. */
  lemma EndKeepsInv(s: State, a: ApplyId, outcome: Outcome, newest: Option<ApplyId>)
    requires Inv(s, newest) && a in s.applies && |s.applies[a].outcomes| < |ENGINES|
    requires outcome.Succeeded? ==> s.applies[a].phase.Replaced? && outcome.snapshot == s.applies[a].phase.snapshot
    ensures Inv(WithOutcome(s, a, outcome), newest)
  {
    EndsWithout(s.applies[a], outcome);
    hide Covers, CleanOnDisk, WrittenAt, Fit, WritesInv, OnDisk, NothingNew;
    QuietKeepsInv(s, a, s.applies[a].(outcomes := s.applies[a].outcomes + [outcome], phase := Between), newest);
  }

  /** The newest apply writes its engine's file and moves on to `apply`. */
  lemma WriteKeepsInv(s: State, a: ApplyId, config: Config, apply: Apply)
    requires Inv(s, Some(a)) && a in s.applies && |s.applies[a].outcomes| < |ENGINES| && Shaped(apply)
    requires var n := |s.applies[a].outcomes|;
             && Fit(WorldOf(s), s.applies, a, n, config)
             && (WrittenAt(apply, n).Some? ==>
                   WrittenAt(apply, n).value.revisions.Keys <= s.used
                   && Covers(config, s.rows, ENGINES[n], WrittenAt(apply, n).value.revisions))
             && forall m :: 0 <= m < |ENGINES| && m != n ==> WrittenAt(apply, m) == WrittenAt(s.applies[a], m)
    requires NewestInv(WorldOf(s), s.applies[a := apply], a)
    ensures Inv(s.(disk := s.disk[ENGINES[|s.applies[a].outcomes|] := config], applies := s.applies[a := apply]),
                Some(a))
  {
    var n := |s.applies[a].outcomes|;
    var t := s.(disk := s.disk[ENGINES[n] := config], applies := s.applies[a := apply]);
    EnginesDiffer();
    hide Covers, WrittenAt, Shows;
    forall b, m | b in t.applies && 0 <= m < |ENGINES| && WrittenAt(t.applies[b], m).Some?
      ensures Written(WorldOf(t), ENGINES[m], WrittenAt(t.applies[b], m).value.revisions)
    {
      if m != n { assert Written(WorldOf(s), ENGINES[m], WrittenAt(s.applies[b], m).value.revisions); }
      if m == n && b != a { assert Written(WorldOf(s), ENGINES[n], WrittenAt(s.applies[b], n).value.revisions); }
    }
    FileSteady(WorldOf(s), WorldOf(t), t.applies, a);
  }

  lemma EnginesDiffer()
    ensures forall n, m :: 0 <= n < |ENGINES| && 0 <= m < |ENGINES| && n != m ==> ENGINES[n] != ENGINES[m]
  {
  }

  /** What the newest apply holds does not depend on the files. */
  lemma FileSteady(s: World, t: World, applies: map<ApplyId, Apply>, a: ApplyId)
    requires s.rows == t.rows && s.used == t.used && NewestInv(s, applies, a)
    ensures NewestInv(t, applies, a)
  {
    hide Covers, CleanOnDisk, WrittenAt;
  }

  lemma ReplaceKeepsInv(s: State, a: ApplyId, threw: bool)
    requires Inv(s, Some(a)) && ApplyStep(s, Replace(a, true, threw)).Some?
    ensures Inv(ApplyStep(s, Replace(a, true, threw)).value, Some(a))
  {
    var was := s.applies[a];
    var phase, n := was.phase, |was.outcomes|;
    var apply :=
      if threw then was.(outcomes := was.outcomes + [Failed], phase := Between)
      else was.(phase := Replaced(phase.snapshot, phase.previous));
    assert ApplyStep(s, Replace(a, true, threw)).value
        == s.(disk := s.disk[ENGINES[n] := phase.snapshot.config], applies := s.applies[a := apply]);
    assert forall m :: 0 <= m < |ENGINES| && m != n ==> WrittenAt(apply, m) == WrittenAt(was, m);
    FitIsOfOthers(WorldOf(s), s.applies, a, apply, n, phase.snapshot.config);
    FitIsOfOthers(WorldOf(s), s.applies, a, apply, n, phase.previous);
    assert WrittenAt(apply, n) == if threw then None else Some(phase.snapshot);
    hide Covers, CleanOnDisk, WrittenAt, Fit, ApplyStep, WritesInv, OnDisk;
    WriteKeepsInv(s, a, phase.snapshot.config, apply);
  }

  lemma RestoreKeepsInv(s: State, a: ApplyId, verified: bool)
    requires Inv(s, Some(a)) && ApplyStep(s, Restore(a, true, verified)).Some?
    ensures Inv(ApplyStep(s, Restore(a, true, verified)).value, Some(a))
  {
    var was := s.applies[a];
    var n := |was.outcomes|;
    var apply := was.(
      outcomes := was.outcomes + [if verified && !was.lost then RolledBack else Failed], phase := Between);
    assert ApplyStep(s, Restore(a, true, verified)).value
        == s.(disk := s.disk[ENGINES[n] := was.phase.previous], applies := s.applies[a := apply]);
    assert forall m :: 0 <= m < |ENGINES| && m != n ==> WrittenAt(apply, m) == WrittenAt(was, m);
    assert WrittenAt(apply, n).None?;
    hide Covers, CleanOnDisk, WrittenAt, Fit, ApplyStep, WritesInv, OnDisk;
    WriteKeepsInv(s, a, was.phase.previous, apply);
  }

  lemma BeginKeepsInv(s: State, a: ApplyId, newest: Option<ApplyId>)
    requires Inv(s, newest) && ApplyStep(s, Begin(a)).Some?
    ensures Inv(ApplyStep(s, Begin(a)).value, Some(a))
  {
    hide Covers, CleanOnDisk, Fit;
    assert forall n :: 0 <= n < |ENGINES| ==> WrittenAt(Apply([], Between, false), n).None?;
  }

  /** An apply ends; with fewer of them around the invariant asks for less. */
  lemma EndedKeepsInv(s: State, a: ApplyId, newest: Option<ApplyId>)
    requires Inv(s, newest)
    ensures Inv(Ended(s, a), newest)
  {
    hide Covers, CleanOnDisk, WrittenAt;
  }

  // ---- commit -------------------------------------------------------------------

  /** `t` has the rows of `s` with flags cleared only where some snapshot in `outcomes` is current. */
  predicate Cleared(s: map<InboundId, Row>, t: map<InboundId, Row>, outcomes: seq<Outcome>) {
    t.Keys == s.Keys
    && forall id :: id in s ==>
         t[id] == s[id].(needsApply := t[id].needsApply)
         && (t[id].needsApply <==> s[id].needsApply && !AppliedAt(outcomes, id, s[id].revision))
  }

  lemma MarkingClears(rows: map<InboundId, Row>, outcomes: seq<Outcome>)
    ensures Cleared(rows, MarkOutcomes(rows, outcomes), outcomes)
  {
    hide MarkOutcomes, AppliedAt;
    MarkOutcomesKeys(rows, outcomes);
    forall id | id in rows
      ensures var row := MarkOutcomes(rows, outcomes)[id];
              row == rows[id].(needsApply := row.needsApply)
              && (row.needsApply <==> rows[id].needsApply && !AppliedAt(outcomes, id, rows[id].revision))
    {
      MarkOutcomesRow(rows, outcomes, id);
    }
  }

  lemma CoversCleared(s: map<InboundId, Row>, t: map<InboundId, Row>, outcomes: seq<Outcome>, config: Config,
                      engine: Engine, revisions: map<InboundId, nat>)
    requires Cleared(s, t, outcomes) && Covers(config, s, engine, revisions)
    ensures Covers(config, t, engine, revisions)
  {
    hide AppliedAt;
  }

  /** A config that covers the snapshots of the outcomes shows the rows they clear. */
  lemma CleanCleared(s: map<InboundId, Row>, t: map<InboundId, Row>, outcomes: seq<Outcome>, config: Config, n: nat)
    requires Cleared(s, t, outcomes) && |outcomes| <= |ENGINES| && n < |ENGINES|
    requires CleanOnDisk(s, ENGINES[n], config)
    requires forall i, id :: (
               0 <= i < |outcomes| && outcomes[i].Succeeded? && id in s && id in outcomes[i].snapshot.revisions ==>
               s[id].engine == ENGINES[i])
    requires n < |outcomes| && outcomes[n].Succeeded? ==> Covers(config, s, ENGINES[n], outcomes[n].snapshot.revisions)
    ensures CleanOnDisk(t, ENGINES[n], config)
  {
    EnginesDiffer();
    forall id | id in t && t[id].engine == ENGINES[n] && !t[id].needsApply ensures Shows(config, id, t[id]) {
      if s[id].needsApply {
        var i :| 0 <= i < |outcomes| && outcomes[i].Succeeded? && id in outcomes[i].snapshot.revisions
          && outcomes[i].snapshot.revisions[id] == s[id].revision;
        assert i == n;
      }
    }
  }

  /** The snapshots of an apply that commits are written, each for its own engine. */
  lemma OutcomesWritten(s: State, a: ApplyId, newest: Option<ApplyId>, i: nat)
    requires Inv(s, newest) && a in s.applies && i < |s.applies[a].outcomes| && s.applies[a].outcomes[i].Succeeded?
    ensures i < |ENGINES|
    ensures WrittenAt(s.applies[a], i) == Some(s.applies[a].outcomes[i].snapshot)
    ensures Written(WorldOf(s), ENGINES[i], s.applies[a].outcomes[i].snapshot.revisions)
  {
    hide Covers, CleanOnDisk, Fit;
    assert Shaped(s.applies[a]);
    assert WrittenAt(s.applies[a], i).Some?;
  }

  lemma CommitClears(s: State, a: ApplyId, newest: Option<ApplyId>)
    requires Inv(s, newest) && a in s.applies
    ensures var outcomes := s.applies[a].outcomes;
            forall i, id :: (
              0 <= i < |outcomes| && outcomes[i].Succeeded? && id in s.rows && id in outcomes[i].snapshot.revisions ==>
              i < |ENGINES| && s.rows[id].engine == ENGINES[i])
  {
    var outcomes := s.applies[a].outcomes;
    hide Inv;
    forall i, id | 0 <= i < |outcomes| && outcomes[i].Succeeded? && id in s.rows && id in outcomes[i].snapshot.revisions
      ensures i < |ENGINES| && s.rows[id].engine == ENGINES[i]
    {
      OutcomesWritten(s, a, newest, i);
    }
  }

  lemma FitCleared(s: State, t: World, a: ApplyId, b: ApplyId, newest: Option<ApplyId>, n: nat, config: Config)
    requires Inv(s, newest) && a in s.applies && b != a && n < |ENGINES|
    requires Cleared(s.rows, t.rows, s.applies[a].outcomes) && Fit(WorldOf(s), s.applies, b, n, config)
    ensures Fit(t, s.applies, b, n, config)
  {
    var outcomes := s.applies[a].outcomes;
    CommitClears(s, a, newest);
    assert Shaped(s.applies[a]);
    if n < |outcomes| && outcomes[n].Succeeded? { OutcomesWritten(s, a, newest, n); }
    hide Inv, Covers, CleanOnDisk, WrittenAt, Cleared;
    CleanCleared(s.rows, t.rows, outcomes, config, n);
    forall c | c in s.applies && c != b && WrittenAt(s.applies[c], n).Some?
      ensures Covers(config, t.rows, ENGINES[n], WrittenAt(s.applies[c], n).value.revisions)
    {
      CoversCleared(s.rows, t.rows, outcomes, config, ENGINES[n], WrittenAt(s.applies[c], n).value.revisions);
    }
  }

  lemma OnDiskCleared(s: State, t: World, a: ApplyId, newest: Option<ApplyId>)
    requires Inv(s, newest) && a in s.applies
    requires Cleared(s.rows, t.rows, s.applies[a].outcomes) && t.disk == s.disk
    ensures OnDisk(t)
  {
    var outcomes := s.applies[a].outcomes;
    forall id | id in t.rows && !t.rows[id].needsApply
      ensures t.rows[id].engine in t.disk && Shows(t.disk[t.rows[id].engine], id, t.rows[id])
    {
      if s.rows[id].needsApply {
        var i :| 0 <= i < |outcomes| && outcomes[i].Succeeded? && id in outcomes[i].snapshot.revisions
          && outcomes[i].snapshot.revisions[id] == s.rows[id].revision;
        OutcomesWritten(s, a, newest, i);
      }
    }
    hide Inv;
  }

  lemma MarkKeepsInv(s: State, a: ApplyId, newest: Option<ApplyId>)
    requires Inv(s, newest) && a in s.applies && s.applies[a].phase.Between?
    ensures Inv(s.(rows := MarkOutcomes(s.rows, s.applies[a].outcomes)), newest)
  {
    var outcomes := s.applies[a].outcomes;
    var t := s.(rows := MarkOutcomes(s.rows, outcomes));
    MarkingClears(s.rows, outcomes);
    OnDiskCleared(s, WorldOf(t), a, newest);
    hide Covers, CleanOnDisk, WrittenAt, Fit, MarkOutcomes, OnDisk;
    forall b, n | b in s.applies && 0 <= n < |ENGINES| && WrittenAt(s.applies[b], n).Some?
      ensures Written(WorldOf(t), ENGINES[n], WrittenAt(s.applies[b], n).value.revisions)
    {
      var revisions := WrittenAt(s.applies[b], n).value.revisions;
      assert Written(WorldOf(s), ENGINES[n], revisions);
      CoversCleared(s.rows, t.rows, outcomes, s.disk[ENGINES[n]], ENGINES[n], revisions);
    }
    if newest.Some? && newest.value in s.applies && newest.value != a && !s.applies[newest.value].phase.Between? {
      var b := newest.value;
      var phase, n := s.applies[b].phase, |s.applies[b].outcomes|;
      FitCleared(s, WorldOf(t), a, b, newest, n, phase.snapshot.config);
      CoversCleared(s.rows, t.rows, outcomes, phase.snapshot.config, ENGINES[n], phase.snapshot.revisions);
      if !phase.Loaded? { FitCleared(s, WorldOf(t), a, b, newest, n, phase.previous); }
    }
  }

  lemma CommitKeepsInv(s: State, a: ApplyId, newest: Option<ApplyId>)
    requires Inv(s, newest) && ApplyStep(s, Commit(a)).Some?
    ensures Inv(ApplyStep(s, Commit(a)).value, newest)
  {
    assert Shaped(s.applies[a]) && s.applies[a].phase.Between?;
    MarkKeepsInv(s, a, newest);
    hide Inv, MarkOutcomes, AggregateStatus;
    EndedKeepsInv(s, a, newest);
    EndedKeepsInv(s.(rows := MarkOutcomes(s.rows, s.applies[a].outcomes)), a, newest);
  }

  // ---- theorems -------------------------------------------------------------------

  lemma ExpiryKeepsInv(s: State, newest: Option<ApplyId>)
    requires Inv(s, newest)
    ensures Inv(s.(lock := None), newest)
  {
    hide Covers, CleanOnDisk, WrittenAt, Fit;
  }

  lemma ApplyStepKeepsInv(s: State, step: Step, newest: Option<ApplyId>)
    requires Inv(s, newest) && ApplyStep(s, step).Some? && !StaleWrite(newest, step)
    ensures Inv(ApplyStep(s, step).value, Newest(newest, step))
  {
    hide Inv;
    match step {
      case Begin(a) => BeginKeepsInv(s, a, newest);
      case SeeLoss(a) => SeeLossKeepsInv(s, a, newest);
      case Load(a) => LoadKeepsInv(s, a, newest);
      case ReadPrevious(a) => ReadPreviousKeepsInv(s, a, newest);
      case EngineFails(a) => EndKeepsInv(s, a, Failed, newest);
      case Replace(a, took, threw) =>
        if took { ReplaceKeepsInv(s, a, threw); } else { EndKeepsInv(s, a, Failed, newest); }
      case Verified(a) =>
        ReplacedIsShaped(s, a, newest);
        EndKeepsInv(s, a, if s.applies[a].lost then Failed else Succeeded(s.applies[a].phase.snapshot), newest);
      case Restore(a, took, verified) =>
        if took { RestoreKeepsInv(s, a, verified); } else { EndKeepsInv(s, a, Failed, newest); }
      case Commit(a) => CommitKeepsInv(s, a, newest);
      case Abort(a) => EndedKeepsInv(s, a, newest);
      case LockExpires => ExpiryKeepsInv(s, newest);
    }
  }

  lemma ReplacedIsShaped(s: State, a: ApplyId, newest: Option<ApplyId>)
    requires Inv(s, newest) && a in s.applies && s.applies[a].phase.Replaced?
    ensures |s.applies[a].outcomes| < |ENGINES|
  {
    assert Shaped(s.applies[a]);
  }

  lemma NextKeepsInv(s: State, step: Step, newest: Option<ApplyId>)
    requires Inv(s, newest) && Next(s, step).Some? && !StaleWrite(newest, step)
    ensures Inv(Next(s, step).value, Newest(newest, step))
  {
    hide Inv, ApplyStep;
    if Mutation(s, step).Some? {
      MutationKeepsInv(s, step, newest);
    } else {
      ApplyStepKeepsInv(s, step, newest);
    }
  }

  lemma {:induction false} RunKeepsOnDisk(s: State, steps: seq<Step>, newest: Option<ApplyId>)
    requires Inv(s, newest) && Run(s, steps).Some? && NoStaleWrites(steps, newest)
    ensures OnDisk(WorldOf(Run(s, steps).value))
    decreases |steps|
  {
    if steps == [] {
      assert OnDisk(WorldOf(s));
    } else {
      hide Inv, Next, OnDisk;
      NextKeepsInv(s, steps[0], newest);
      RunKeepsOnDisk(Next(s, steps[0]).value, steps[1..], Newest(newest, steps[0]));
    }
  }

  /** Whatever leases do: as long as no apply writes a config file after another apply has
      begun, an inbound that needs no apply is in its engine's file exactly as its row says.
      An overtaken apply may go on otherwise, and commit. */
  lemma OvertakenMayNotWrite(s: State, steps: seq<Step>)
    requires Initial(s) && Run(s, steps).Some? && NoStaleWrites(steps, None)
    ensures OnDisk(WorldOf(Run(s, steps).value))
  {
    RunKeepsOnDisk(s, steps, None);
  }

  /** While leases hold, only the newest apply is around. */
  predicate Exclusive(s: State, newest: Option<ApplyId>) {
    (forall a :: a in s.applies ==> s.lock == Some(a)) && (s.lock.Some? ==> newest == s.lock)
  }

  lemma NextKeepsExclusive(s: State, step: Step, newest: Option<ApplyId>)
    requires Exclusive(s, newest) && Next(s, step).Some? && !step.LockExpires?
    ensures Exclusive(Next(s, step).value, Newest(newest, step)) && !StaleWrite(newest, step)
  {
    hide Render, Revisions, MarkOutcomes, AggregateStatus;
  }

  lemma {:induction false} HeldLeasesExclude(s: State, steps: seq<Step>, newest: Option<ApplyId>)
    requires Exclusive(s, newest) && Run(s, steps).Some? && LockExpires !in steps
    ensures NoStaleWrites(steps, newest)
    decreases |steps|
  {
    if steps != [] {
      hide Exclusive, Next, StaleWrite;
      NextKeepsExclusive(s, steps[0], newest);
      HeldLeasesExclude(Next(s, steps[0]).value, steps[1..], Newest(newest, steps[0]));
    }
  }

  /** As long as no lease expires under its holder: at every moment of every run, an inbound
      that needs no apply is in its engine's config file exactly as its row says. */
  lemma CleanInboundsAreOnDisk(s: State, steps: seq<Step>)
    requires Initial(s) && Run(s, steps).Some? && LockExpires !in steps
    ensures OnDisk(WorldOf(Run(s, steps).value))
  {
    HeldLeasesExclude(s, steps, None);
    hide Run, OnDisk;
    OvertakenMayNotWrite(s, steps);
  }

  /** Some engine succeeded with a snapshot of this revision of the inbound. */
  predicate AppliedAt(outcomes: seq<Outcome>, id: InboundId, revision: nat) {
    exists i :: 0 <= i < |outcomes| && outcomes[i].Succeeded? &&
                id in outcomes[i].snapshot.revisions && outcomes[i].snapshot.revisions[id] == revision
  }

  lemma {:induction false} MarkOutcomesRow(rows: map<InboundId, Row>, outcomes: seq<Outcome>, id: InboundId)
    requires id in rows
    ensures id in MarkOutcomes(rows, outcomes)
    ensures var row := MarkOutcomes(rows, outcomes)[id];
            && row == rows[id].(needsApply := row.needsApply)
            && (row.needsApply <==> rows[id].needsApply && !AppliedAt(outcomes, id, rows[id].revision))
    decreases |outcomes|
  {
    if outcomes != [] {
      var marked := if outcomes[0].Succeeded? then MarkApplied(rows, outcomes[0].snapshot.revisions) else rows;
      MarkOutcomesRow(marked, outcomes[1..], id);
      assert outcomes == [outcomes[0]] + outcomes[1..];
    }
  }

  lemma {:induction false} SomeSucceeded(outcomes: seq<Outcome>)
    ensures CountSucceeded(outcomes) <= |outcomes| && CountRolledBack(outcomes) <= |outcomes|
    ensures CountSucceeded(outcomes) > 0 <==> exists i :: 0 <= i < |outcomes| && outcomes[i].Succeeded?
    ensures CountSucceeded(outcomes) == |outcomes| <==> forall i :: 0 <= i < |outcomes| ==> outcomes[i].Succeeded?
    ensures CountRolledBack(outcomes) == |outcomes| <==> forall i :: 0 <= i < |outcomes| ==> outcomes[i].RolledBack?
    decreases |outcomes|
  {
    if outcomes != [] {
      SomeSucceeded(outcomes[1..]);
      assert outcomes == [outcomes[0]] + outcomes[1..];
    }
  }

  /** A commit clears a flag exactly where some engine's apply succeeded with a snapshot of the
      row's current revision, and changes nothing else in any row. */
  lemma CommitClearsExactly(s: State, a: ApplyId, id: InboundId)
    requires ApplyStep(s, Commit(a)).Some? && id in s.rows
    ensures var t := ApplyStep(s, Commit(a)).value; var outcomes := s.applies[a].outcomes;
            && t.rows.Keys == s.rows.Keys && t.rows[id] == s.rows[id].(needsApply := t.rows[id].needsApply)
            && (t.rows[id].needsApply <==> s.rows[id].needsApply && !AppliedAt(outcomes, id, s.rows[id].revision))
  {
    var outcomes := s.applies[a].outcomes;
    MarkOutcomesRow(s.rows, outcomes, id);
    forall i | i in s.rows ensures i in MarkOutcomes(s.rows, outcomes) { MarkOutcomesRow(s.rows, outcomes, i); }
    MarkOutcomesKeys(s.rows, outcomes);
    SomeSucceeded(outcomes);
  }

  lemma {:induction false} MarkOutcomesKeys(rows: map<InboundId, Row>, outcomes: seq<Outcome>)
    ensures MarkOutcomes(rows, outcomes).Keys == rows.Keys
    decreases |outcomes|
  {
    if outcomes != [] {
      var marked := if outcomes[0].Succeeded? then MarkApplied(rows, outcomes[0].snapshot.revisions) else rows;
      MarkOutcomesKeys(marked, outcomes[1..]);
    }
  }

  /** When an engine's work ends and how: it succeeded exactly if its file was replaced, the
      engine verified and no loss of the lease seen; it was rolled back exactly if the previous
      config was written back, verified and no loss seen. */
  lemma OutcomesExactly(s: State, step: Step, a: ApplyId)
    requires ApplyStep(s, step).Some? && a in s.applies && a in ApplyStep(s, step).value.applies
    requires s.applies[a] != ApplyStep(s, step).value.applies[a]
    ensures var t := ApplyStep(s, step).value;
            var before, after := s.applies[a], t.applies[a];
            var n := |before.outcomes|;
            && (after.outcomes == before.outcomes
                || (|after.outcomes| == n + 1 && after.outcomes[..n] == before.outcomes && after.phase == Between))
            && (|after.outcomes| == n + 1 && after.outcomes[n].Succeeded? <==> step == Verified(a) && !before.lost)
            && (|after.outcomes| == n + 1 && after.outcomes[n].Succeeded? ==>
                  before.phase.Replaced? && after.outcomes[n].snapshot == before.phase.snapshot && t.disk == s.disk)
            && (|after.outcomes| == n + 1 && after.outcomes[n].RolledBack? <==>
                  step == Restore(a, true, true) && !before.lost)
            && (|after.outcomes| == n + 1 && after.outcomes[n].RolledBack? ==>
                  before.phase.Replaced? && n < |ENGINES| && t.disk == s.disk[ENGINES[n] := before.phase.previous])
            && (after.phase.Replaced? && !before.phase.Replaced? ==>
                  n < |ENGINES| && t.disk == s.disk[ENGINES[n] := before.phase.snapshot.config])
  {
    hide Render, Revisions, MarkOutcomes, AggregateStatus;
  }

  lemma StatusMeaning(outcomes: seq<Outcome>)
    ensures AggregateStatus(outcomes).SUCCEEDED? <==>
      outcomes != [] && forall i :: 0 <= i < |outcomes| ==> outcomes[i].Succeeded?
    ensures AggregateStatus(outcomes).PARTIAL_SUCCEEDED? <==>
              (exists i :: 0 <= i < |outcomes| && outcomes[i].Succeeded?) &&
              (exists i :: 0 <= i < |outcomes| && !outcomes[i].Succeeded?)
    ensures AggregateStatus(outcomes).ROLLED_BACK? <==>
      outcomes != [] && forall i :: 0 <= i < |outcomes| ==> outcomes[i].RolledBack?
  {
    SomeSucceeded(outcomes);
    if outcomes != [] && AggregateStatus(outcomes).ROLLED_BACK? { assert outcomes[0].RolledBack?; }
  }

  // ---- the loop of markInboundRevisionsApplied ------------------------------------

  function RevisionMap(revisions: seq<(InboundId, nat)>): (m: map<InboundId, nat>)
    ensures forall id :: id in m <==> exists i :: 0 <= i < |revisions| && revisions[i].0 == id
  {
    if revisions == [] then map[]
    else
      var last := |revisions| - 1;
      RevisionMap(revisions[..last])[revisions[last].0 := revisions[last].1]
  }

  lemma MarkOneMore(rows: map<InboundId, Row>, m: map<InboundId, nat>, id: InboundId, revision: nat)
    requires id !in m
    ensures MarkApplied(MarkApplied(rows, m), map[id := revision]) == MarkApplied(rows, m[id := revision])
  {
  }

  class InboundTable {
    var rows: map<InboundId, Row>

    /** `updateMany` of one inbound at one revision. */
    method ClearFlag(id: InboundId, revision: nat)
      modifies this
      ensures rows == MarkApplied(old(rows), map[id := revision])
    {
      if id in rows && rows[id].revision == revision {
        rows := rows[id := rows[id].(needsApply := false)];
      }
    }

    /** The ids are primary keys, so none occurs twice. */
    method MarkInboundRevisionsApplied(revisions: seq<(InboundId, nat)>)
      requires forall i, j :: 0 <= i < j < |revisions| ==> revisions[i].0 != revisions[j].0
      modifies this
      ensures rows == MarkApplied(old(rows), RevisionMap(revisions))
    {
      hide MarkApplied;
      assert rows == MarkApplied(rows, map[]) by { MarkNone(rows); }
      for i := 0 to |revisions|
        invariant rows == MarkApplied(old(rows), RevisionMap(revisions[..i]))
      {
        MarkOneMore(old(rows), RevisionMap(revisions[..i]), revisions[i].0, revisions[i].1);
        ClearFlag(revisions[i].0, revisions[i].1);
        assert revisions[..i + 1][..i] == revisions[..i];
      }
      assert revisions[..|revisions|] == revisions;
    }
  }

  lemma MarkNone(rows: map<InboundId, Row>)
    ensures MarkApplied(rows, map[]) == rows
  {
  }

  // ---- without the lock --------------------------------------------------------------

  // One sing-box inbound, id 7; "old" is its revision 1 and "new" its revision 2.
  const OLD := Snapshot(map[7 := "old"], map[7 := 1])
  const NEW := Snapshot(map[7 := "new"], map[7 := 2])
  const NOTHING: Config := map[]

  function Rows(body: Body, revision: nat, needsApply: bool): map<InboundId, Row> {
    map[7 := Row(SING_BOX, true, body, revision, needsApply)]
  }

  function One(rows: map<InboundId, Row>, config: Config, first: Phase, lock: Option<ApplyId>): State {
    State(rows, {7}, map[SING_BOX := config], map[1 := Apply([], first, false)], lock)
  }

  /** The first apply is about to replace the file with its snapshot of revision 1. */
  const STALE := Replacing(OLD, NOTHING)

  function Two(config: Config, outcomes: seq<Outcome>, second: Phase): State {
    State(Rows("new", 2, true), {7}, map[SING_BOX := config],
          map[1 := Apply([], STALE, false), 2 := Apply(outcomes, second, false)], Some(2))
  }

  lemma RenderOne(body: Body, revision: nat, needsApply: bool)
    ensures Render(Rows(body, revision, needsApply), SING_BOX) == map[7 := body]
    ensures Revisions(Rows(body, revision, needsApply), SING_BOX) == map[7 := revision]
  {
  }

  predicate SameState(s: State, t: State) {
    s.rows == t.rows && s.used == t.used && s.disk == t.disk && s.applies == t.applies && s.lock == t.lock
  }

  lemma Took(s: State, step: Step, t: State, rest: seq<Step>)
    requires Next(s, step).Some? && SameState(Next(s, step).value, t)
    ensures Run(s, [step] + rest) == Run(t, rest)
  {
    assert ([step] + rest)[1..] == rest;
  }

  const START := State(map[], {}, map[SING_BOX := NOTHING], map[], None)
  const CREATED := State(Rows("old", 1, true), {7}, map[SING_BOX := NOTHING], map[], None)

  lemma Creates(rest: seq<Step>)
    ensures Run(START, [Create(7, SING_BOX, true, "old")] + rest) == Run(CREATED, rest)
  {
    hide Run;
    Took(START, Create(7, SING_BOX, true, "old"), CREATED, rest);
  }

  lemma FirstBegins(rest: seq<Step>)
    ensures Run(CREATED, [Begin(1)] + rest) == Run(One(Rows("old", 1, true), NOTHING, Between, Some(1)), rest)
  {
    hide Run;
    Took(CREATED, Begin(1), One(Rows("old", 1, true), NOTHING, Between, Some(1)), rest);
  }

  lemma FirstLoads(rest: seq<Step>)
    ensures Run(One(Rows("old", 1, true), NOTHING, Between, Some(1)), [Load(1)] + rest)
         == Run(One(Rows("old", 1, true), NOTHING, Loaded(OLD), Some(1)), rest)
  {
    hide Run, Render, Revisions, Rows;
    RenderOne("old", 1, true);
    Took(One(Rows("old", 1, true), NOTHING, Between, Some(1)), Load(1),
         One(Rows("old", 1, true), NOTHING, Loaded(OLD), Some(1)), rest);
  }

  /** The last check of the lease passes, rightly. */
  lemma FirstReads(rest: seq<Step>)
    ensures Run(One(Rows("old", 1, true), NOTHING, Loaded(OLD), Some(1)), [ReadPrevious(1)] + rest)
         == Run(One(Rows("old", 1, true), NOTHING, STALE, Some(1)), rest)
  {
    hide Run, Rows;
    Took(One(Rows("old", 1, true), NOTHING, Loaded(OLD), Some(1)), ReadPrevious(1),
         One(Rows("old", 1, true), NOTHING, STALE, Some(1)), rest);
  }

  lemma LeaseExpires(rest: seq<Step>)
    ensures Run(One(Rows("old", 1, true), NOTHING, STALE, Some(1)), [LockExpires] + rest)
         == Run(One(Rows("old", 1, true), NOTHING, STALE, None), rest)
  {
    hide Run, Rows;
    Took(One(Rows("old", 1, true), NOTHING, STALE, Some(1)), LockExpires,
         One(Rows("old", 1, true), NOTHING, STALE, None), rest);
  }

  lemma RowMutates(rest: seq<Step>)
    ensures Run(One(Rows("old", 1, true), NOTHING, STALE, None), [Update(7, true, "new")] + rest)
         == Run(One(Rows("new", 2, true), NOTHING, STALE, None), rest)
  {
    hide Run;
    Took(One(Rows("old", 1, true), NOTHING, STALE, None), Update(7, true, "new"),
         One(Rows("new", 2, true), NOTHING, STALE, None), rest);
  }

  lemma SecondBegins(rest: seq<Step>)
    ensures Run(One(Rows("new", 2, true), NOTHING, STALE, None), [Begin(2)] + rest) ==
      Run(Two(NOTHING, [], Between), rest)
  {
    hide Run, Rows;
    Took(One(Rows("new", 2, true), NOTHING, STALE, None), Begin(2), Two(NOTHING, [], Between), rest);
  }

  lemma SecondLoads(rest: seq<Step>)
    ensures Run(Two(NOTHING, [], Between), [Load(2)] + rest) == Run(Two(NOTHING, [], Loaded(NEW)), rest)
  {
    hide Run, Render, Revisions, Rows;
    RenderOne("new", 2, true);
    Took(Two(NOTHING, [], Between), Load(2), Two(NOTHING, [], Loaded(NEW)), rest);
  }

  lemma SecondReads(rest: seq<Step>)
    ensures Run(Two(NOTHING, [], Loaded(NEW)), [ReadPrevious(2)] + rest) ==
      Run(Two(NOTHING, [], Replacing(NEW, NOTHING)), rest)
  {
    hide Run, Rows;
    Took(Two(NOTHING, [], Loaded(NEW)), ReadPrevious(2), Two(NOTHING, [], Replacing(NEW, NOTHING)), rest);
  }

  lemma SecondReplaces(rest: seq<Step>)
    ensures Run(Two(NOTHING, [], Replacing(NEW, NOTHING)), [Replace(2, true, false)] + rest)
         == Run(Two(NEW.config, [], Replaced(NEW, NOTHING)), rest)
  {
    hide Run, Rows;
    Took(Two(NOTHING, [], Replacing(NEW, NOTHING)), Replace(2, true, false),
      Two(NEW.config, [], Replaced(NEW, NOTHING)), rest);
  }

  const WROTE := [Succeeded(NEW)]

  lemma SecondSucceeds(rest: seq<Step>)
    ensures Run(Two(NEW.config, [], Replaced(NEW, NOTHING)), [Verified(2)] + rest) ==
      Run(Two(NEW.config, WROTE, Between), rest)
  {
    hide Run, Rows;
    assert [] + [Succeeded(NEW)] == WROTE;
    Took(Two(NEW.config, [], Replaced(NEW, NOTHING)), Verified(2), Two(NEW.config, WROTE, Between), rest);
  }

  lemma AnotherFails(outcomes: seq<Outcome>, rest: seq<Step>)
    requires |outcomes| < |ENGINES|
    ensures Run(Two(NEW.config, outcomes, Between), [EngineFails(2)] + rest)
         == Run(Two(NEW.config, outcomes + [Failed], Between), rest)
  {
    hide Run, Rows;
    Took(Two(NEW.config, outcomes, Between), EngineFails(2), Two(NEW.config, outcomes + [Failed], Between), rest);
  }

  const ALL := WROTE + [Failed] + [Failed] + [Failed]

  lemma SecondCommits(rest: seq<Step>)
    ensures Run(Two(NEW.config, ALL, Between), [Commit(2)] + rest)
         == Run(One(Rows("new", 2, false), NEW.config, STALE, None), rest)
  {
    hide Run, MarkOutcomes, AggregateStatus, Rows;
    CommitsNew();
    Took(Two(NEW.config, ALL, Between), Commit(2), One(Rows("new", 2, false), NEW.config, STALE, None), rest);
  }

  lemma CommitsNew()
    ensures AggregateStatus(ALL).PARTIAL_SUCCEEDED?
    ensures MarkOutcomes(Rows("new", 2, true), ALL) == Rows("new", 2, false)
  {
    StatusMeaning(ALL);
    assert ALL[0].Succeeded? && !ALL[1].Succeeded?;
    assert MarkApplied(Rows("new", 2, true), NEW.revisions) == Rows("new", 2, false);
    assert ALL[1..] == [Failed, Failed, Failed];
    var rows := Rows("new", 2, false);
    assert [Failed, Failed, Failed][1..] == [Failed, Failed];
    assert [Failed, Failed][1..] == [Failed];
    assert MarkOutcomes(rows, [Failed]) == rows;
    assert MarkOutcomes(rows, [Failed, Failed]) == rows;
    assert MarkOutcomes(rows, [Failed, Failed, Failed]) == rows;
  }

  const OVERWRITTEN := One(Rows("new", 2, false), OLD.config, Replaced(OLD, NOTHING), None)

  lemma FirstOverwrites(rest: seq<Step>)
    ensures Run(One(Rows("new", 2, false), NEW.config, STALE, None), [Replace(1, true, false)] + rest) ==
      Run(OVERWRITTEN, rest)
  {
    hide Run, Rows;
    Took(One(Rows("new", 2, false), NEW.config, STALE, None), Replace(1, true, false), OVERWRITTEN, rest);
  }

  lemma OverwrittenIsWrong()
    ensures Run(OVERWRITTEN, []) == Some(OVERWRITTEN)
    ensures !OnDisk(WorldOf(OVERWRITTEN))
  {
    var w := WorldOf(OVERWRITTEN);
    assert 7 in w.rows && w.disk[SING_BOX][7][0] != w.rows[7].body[0];
  }

  const Ends: seq<Step> := [Commit(2)] + ([Replace(1, true, false)] + [])
  const Fails: seq<Step> := [EngineFails(2)] + ([EngineFails(2)] + ([EngineFails(2)] + Ends))
  const Seconds: seq<Step> :=
    [Begin(2)] + ([Load(2)] + ([ReadPrevious(2)] + ([Replace(2, true, false)] + ([Verified(2)] + Fails))))
  const Firsts: seq<Step> := [Load(1)] + ([ReadPrevious(1)] + ([LockExpires] + ([Update(7, true, "new")] + Seconds)))
  const LosingSteps: seq<Step> := [Create(7, SING_BOX, true, "old")] + ([Begin(1)] + Firsts)

  lemma SecondRuns()
    ensures Run(One(Rows("new", 2, true), NOTHING, STALE, None), Seconds) == Run(Two(NEW.config, WROTE, Between), Fails)
  {
    hide Run, One, Two, Rows;
    SecondBegins([Load(2)] + ([ReadPrevious(2)] + ([Replace(2, true, false)] + ([Verified(2)] + Fails))));
    SecondLoads([ReadPrevious(2)] + ([Replace(2, true, false)] + ([Verified(2)] + Fails)));
    SecondReads([Replace(2, true, false)] + ([Verified(2)] + Fails));
    SecondReplaces([Verified(2)] + Fails);
    SecondSucceeds(Fails);
  }

  lemma SecondEnds()
    ensures Run(Two(NEW.config, WROTE, Between), Fails) == Run(OVERWRITTEN, [])
  {
    hide Run, One, Two, Rows;
    AnotherFails(WROTE, [EngineFails(2)] + ([EngineFails(2)] + Ends));
    AnotherFails(WROTE + [Failed], [EngineFails(2)] + Ends);
    AnotherFails(WROTE + [Failed] + [Failed], Ends);
    SecondCommits([Replace(1, true, false)] + []);
    FirstOverwrites([]);
  }

  lemma FirstRuns()
    ensures Run(START, LosingSteps) == Run(One(Rows("new", 2, true), NOTHING, STALE, None), Seconds)
  {
    hide Run, One, Rows;
    Creates([Begin(1)] + Firsts);
    FirstBegins(Firsts);
    FirstLoads([ReadPrevious(1)] + ([LockExpires] + ([Update(7, true, "new")] + Seconds)));
    FirstReads([LockExpires] + ([Update(7, true, "new")] + Seconds));
    LeaseExpires([Update(7, true, "new")] + Seconds);
    RowMutates(Seconds);
  }

  /** The lock is needed: once a lease has expired under its holder, a clean inbound can be
      missing from the file. The first apply passes its last check of the lease and reads the
      old file; its lease expires; the second apply clears revision 2; then the first one
      replaces the file with its snapshot of revision 1. */
  lemma LostLeaseLosesMutation()
    ensures Initial(START) && Run(START, LosingSteps).Some? && !OnDisk(WorldOf(Run(START, LosingSteps).value))
  {
    hide Run, OnDisk, One, Two, Rows;
    FirstRuns();
    SecondRuns();
    SecondEnds();
    OverwrittenIsWrong();
  }

  /** Leases that never expire under their holders make every run keep every clean inbound on
      disk; leases that may expire at any time do not. */
  lemma LockIsNeeded(mayExpire: bool)
    ensures !mayExpire <==>
      forall s, steps :: Initial(s) && Run(s, steps).Some? && (LockExpires in steps ==> mayExpire) ==>
        OnDisk(WorldOf(Run(s, steps).value))
  {
    hide Run, OnDisk;
    if mayExpire {
      LostLeaseLosesMutation();
    } else {
      forall s, steps | Initial(s) && Run(s, steps).Some? && LockExpires !in steps
        ensures OnDisk(WorldOf(Run(s, steps).value))
      {
        CleanInboundsAreOnDisk(s, steps);
      }
    }
  }
}
