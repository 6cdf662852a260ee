/** Replacing an engine's config file: the file steps of
    apps/api/src/core/core-adapters.ts, `apply` of
    apps/api/src/core/sing-box.provider.ts (the MTProxy provider has the same body)
    and the agent's apps/agent/src/core/apply.ts. What the environment answers to each
    call is an argument, so a contract here speaks of every pattern of failures. */
module ConfigApply {
  import opened Options
  import opened Engines
  import opened Text

  type Bytes = string
  type Hash = string

  datatype Path =
    | Config(engine: Engine)
    | LastKnownGood(engine: Engine)
    | Candidate(engine: Engine, id: nat)
    | Temporary(target: Path)

  type Files = map<Path, Bytes>

  /** The files under names that anything reads. */
  function Visible(files: Files): Files {
    map p | p in files && !p.Temporary? :: files[p]
  }

  /** How an atomic write or a replace ends. A failed directory sync comes after the rename. */
  datatype Fault = Works | OpenFails | WriteFails(written: nat) | RenameFails | SyncFails

  predicate Renames(fault: Fault) { fault.Works? || fault.SyncFails? }

  function AfterWrite(v: Files, path: Path, content: Bytes, fault: Fault): Files {
    if Renames(fault) then v[path := content] else v
  }

  function AfterReplace(v: Files, source: Path, destination: Path, fault: Fault): Files
    requires source in v
  {
    if Renames(fault) then (v - {source})[destination := v[source]] else v
  }

  /** Every state the disk was in from step `start` on showed one of `states`. */
  ghost predicate Shows(trail: seq<Files>, start: nat, states: set<Files>) {
    forall i :: start <= i < |trail| ==> Visible(trail[i]) in states
  }

  lemma SeenAsIs(files: Files, path: Path)
    requires !path.Temporary?
    ensures path in Visible(files) <==> path in files
    ensures path in files ==> Visible(files)[path] == files[path]
  {
  }

  lemma VisibleUpdate(files: Files, path: Path, content: Bytes)
    ensures path.Temporary? ==> Visible(files[path := content]) == Visible(files)
    ensures !path.Temporary? ==> Visible(files[path := content]) == Visible(files)[path := content]
  {
  }

  lemma VisibleRemove(files: Files, path: Path)
    ensures path.Temporary? ==> Visible(files - {path}) == Visible(files)
    ensures !path.Temporary? ==> Visible(files - {path}) == Visible(files) - {path}
  {
  }

  lemma VisibleMove(files: Files, source: Path, destination: Path)
    requires source in files && !destination.Temporary? && source != destination
    ensures source.Temporary? ==>
      Visible((files - {source})[destination := files[source]]) == Visible(files)[destination := files[source]]
    ensures !source.Temporary? ==>
      Visible((files - {source})[destination := files[source]]) ==
        (Visible(files) - {source})[destination := files[source]]
  {
  }

  /** A directory tree whose every state is kept in `trail`: a process that stops
      leaves one of them behind. */
  class Disk {
    var files: Files
    ghost var trail: seq<Files>

    method Put(path: Path, content: Bytes)
      modifies this
      ensures files == old(files)[path := content] && trail == old(trail) + [files]
    {
      files := files[path := content];
      trail := trail + [files];
    }

    method Unlink(path: Path)
      modifies this
      ensures files == old(files) - {path} && trail == old(trail) + [files]
    {
      files := files - {path};
      trail := trail + [files];
    }

    method Rename(source: Path, destination: Path)
      requires source in files
      modifies this
      ensures files == (old(files) - {source})[destination := old(files)[source]] && trail == old(trail) + [files]
    {
      files := (files - {source})[destination := files[source]];
      trail := trail + [files];
    }

    method Read(path: Path, readable: bool) returns (content: Option<Bytes>)
      ensures content == if readable && path in files then Some(files[path]) else None
    {
      if !readable || path !in files { return None; }
      content := Some(files[path]);
    }

    /** `atomicWrite`: a partial file is only ever seen under a temporary name. */
    method AtomicWrite(path: Path, content: Bytes, fault: Fault) returns (ok: bool)
      requires !path.Temporary?
      modifies this
      ensures ok == fault.Works?
      ensures Visible(files) == AfterWrite(Visible(old(files)), path, content, fault)
      ensures old(trail) <= trail
      ensures Shows(trail, |old(trail)|, {Visible(old(files)), AfterWrite(Visible(old(files)), path, content, fault)})
    {
      var temporary := Temporary(path);
      VisibleUpdate(files, temporary, "");
      if fault.OpenFails? { return false; }
      Put(temporary, "");
      if fault.WriteFails? {
        var part := if fault.written <= |content| then content[..fault.written] else content;
        VisibleUpdate(files, temporary, part);
        Put(temporary, part);
        return false;
      }
      VisibleUpdate(files, temporary, content);
      Put(temporary, content);
      VisibleRemove(files, temporary);
      if fault.RenameFails? {
        Unlink(temporary);
        return false;
      }
      VisibleMove(files, temporary, path);
      Rename(temporary, path);
      if fault.SyncFails? {
        VisibleRemove(files, temporary);
        Unlink(temporary);
        return false;
      }
      ok := true;
    }

    /** `replace`: renaming a missing source fails. */
    method Replace(source: Path, destination: Path, fault: Fault) returns (ok: bool)
      requires !source.Temporary? && !destination.Temporary? && source != destination
      modifies this
      ensures ok == (old(source in files) && fault.Works?)
      ensures Visible(files) ==
        if old(source in files) then AfterReplace(Visible(old(files)), source, destination, fault)
        else Visible(old(files))
      ensures old(trail) <= trail
      ensures Shows(trail, |old(trail)|, {Visible(files)})
    {
      if source !in files || !Renames(fault) { return false; }
      VisibleMove(files, source, destination);
      Rename(source, destination);
      ok := fault.Works?;
    }

    /** `remove`, whose errors the callers drop. */
    method Remove(path: Path, works: bool)
      requires !path.Temporary?
      modifies this
      ensures Visible(files) == if works then Visible(old(files)) - {path} else Visible(old(files))
      ensures old(trail) <= trail
      ensures Shows(trail, |old(trail)|, {Visible(files)})
    {
      if works {
        VisibleRemove(files, path);
        Unlink(path);
      }
    }
  }

  /** The config is the old one, or it is the new one and the old one is the last known good. */
  predicate Backed(v: Files, engine: Engine, previous: Bytes, desired: Bytes) {
    Config(engine) in v
    && (v[Config(engine)] == previous
        || (v[Config(engine)] == desired && LastKnownGood(engine) in v && v[LastKnownGood(engine)] == previous))
  }

  predicate Owned(p: Path, engine: Engine) {
    (p.Config? || p.LastKnownGood? || p.Candidate?) && p.engine == engine
  }

  /** Only the engine's own files differ. */
  ghost predicate OthersKept(before: Files, after: Files, engine: Engine) {
    forall p :: !Owned(p, engine) ==> (p in before <==> p in after) && (p in before ==> before[p] == after[p])
  }

  datatype Status = Succeeded | Failed | RolledBack
  datatype Rollback = NotRequired | RollbackSucceeded | RollbackFailed
  datatype ApplyResult = ApplyResult(status: Status, desiredHash: Hash, previousHash: Option<Hash>, rollback: Rollback)

  /** The answers one apply gets. `accepted`: the reload is acknowledged and the engine is healthy. */
  datatype Answers = Answers(
    readable: bool, candidate: Fault, backup: Fault, replace: Fault, accepted: bool,
    restore: Fault, acceptedBack: bool, removes: bool)

  predicate SameFile(before: Files, after: Files, path: Path) {
    (path in before <==> path in after) && (path in before ==> before[path] == after[path])
  }

  /** The new config got its name. `copied`: a copy of the old one had to be made first. */
  predicate Renamed(env: Answers, copied: bool) {
    env.candidate.Works? && (copied ==> env.backup.Works?) && Renames(env.replace)
  }

  /** ... and the caller was told so. */
  predicate Replaced(env: Answers, copied: bool) { Renamed(env, copied) && env.replace.Works? }

  /** Putting `desired` over what `before` held; `always` is false where an empty old
      config gets no copy. */
  datatype Goal = Goal(before: Files, engine: Engine, desired: Bytes, always: bool)

  /** The engine's config is the old or the new one, and the old one is not lost. */
  predicate EngineSafe(g: Goal, v: Files) {
    var config := Config(g.engine);
    (SameFile(g.before, v, config) || (config in v && v[config] == g.desired))
    && (config in g.before && (g.always || g.before[config] != "") ==> Backed(v, g.engine, g.before[config], g.desired))
  }

  /** What every state of the disk must be while an apply runs. */
  ghost predicate SafeState(g: Goal, v: Files) {
    EngineSafe(g, v) && OthersKept(g.before, v, g.engine)
  }

  ghost predicate SafeSince(g: Goal, trail: seq<Files>, start: nat) {
    forall i :: start <= i < |trail| ==> SafeState(g, Visible(trail[i]))
  }

  lemma SafeAtFirst(g: Goal, trail: seq<Files>)
    ensures SafeSince(g, trail, |trail|) && SafeState(g, g.before)
  {
  }

  lemma SafeShown(g: Goal, trail: seq<Files>, start: nat, middle: nat, states: set<Files>)
    requires start <= middle <= |trail|
    requires SafeSince(g, trail[..middle], start)
    requires Shows(trail, middle, states)
    requires forall v :: v in states ==> SafeState(g, v)
    ensures SafeSince(g, trail, start)
  {
    forall i | start <= i < |trail| ensures SafeState(g, Visible(trail[i])) {
      if i < middle { assert trail[..middle][i] == trail[i]; }
    }
  }

  lemma RestoringIsSafe(g: Goal, v: Files)
    requires SafeState(g, v) && Config(g.engine) in g.before
    ensures SafeState(g, v[Config(g.engine) := g.before[Config(g.engine)]])
  {
  }

  /** The same file steps inside an apply, which keep every state safe. */
  class Steps {
    const disk: Disk

    constructor (disk: Disk)
      ensures this.disk == disk
    {
      this.disk := disk;
    }

    method Write(path: Path, content: Bytes, fault: Fault, ghost g: Goal, ghost start: nat) returns (ok: bool)
      requires Owned(path, g.engine) && start <= |disk.trail|
      requires SafeSince(g, disk.trail, start) && SafeState(g, Visible(disk.files))
      requires SafeState(g, Visible(disk.files)[path := content])
      modifies disk
      ensures ok == fault.Works?
      ensures Visible(disk.files) == AfterWrite(Visible(old(disk.files)), path, content, fault)
      ensures old(disk.trail) <= disk.trail
      ensures SafeSince(g, disk.trail, start) && SafeState(g, Visible(disk.files))
    {
      hide Visible, Shows, SafeState, SafeSince;
      ok := disk.AtomicWrite(path, content, fault);
      assert disk.trail[..|old(disk.trail)|] == old(disk.trail);
      SafeShown(g, disk.trail, start, |old(disk.trail)|,
        {Visible(old(disk.files)), AfterWrite(Visible(old(disk.files)), path, content, fault)});
    }

    /** Removing the candidate, which nothing reads. */
    method CleanUp(candidate: Path, works: bool, ghost g: Goal, ghost start: nat)
      requires candidate.Candidate? && candidate.engine == g.engine && start <= |disk.trail|
      requires SafeSince(g, disk.trail, start) && SafeState(g, Visible(disk.files))
      modifies disk
      ensures old(disk.trail) <= disk.trail
      ensures SafeSince(g, disk.trail, start) && SafeState(g, Visible(disk.files))
      ensures forall p: Path :: p.Config? || p.LastKnownGood? ==> SameFile(old(disk.files), disk.files, p)
      ensures works ==> candidate !in disk.files
    {
      hide Shows, SafeSince, Visible;
      disk.Remove(candidate, works);
      SeenAsIs(disk.files, candidate);
      forall p: Path | p.Config? || p.LastKnownGood? ensures SameFile(old(disk.files), disk.files, p)
      {
        SeenAsIs(old(disk.files), p);
        SeenAsIs(disk.files, p);
      }
      assert disk.trail[..|old(disk.trail)|] == old(disk.trail);
      SafeShown(g, disk.trail, start, |old(disk.trail)|, {Visible(disk.files)});
    }

    /** Candidate, copy of the old config, then the rename. */
    method Install(engine: Engine, content: Bytes, copy: Option<Bytes>, candidate: Path, env: Answers, ghost g: Goal,
        ghost start: nat)
      returns (ok: bool)
      requires candidate.Candidate? && candidate.engine == engine && engine == g.engine && content == g.desired
      requires g.before == Visible(disk.files) && start == |disk.trail|
      requires copy.Some? ==> Config(g.engine) in disk.files && disk.files[Config(g.engine)] == copy.value
      requires copy.None? ==> !g.always && (Config(g.engine) in disk.files ==> disk.files[Config(g.engine)] == "")
      modifies disk
      ensures ok == Replaced(env, copy.Some?)
      ensures old(disk.trail) <= disk.trail
      ensures SafeSince(g, disk.trail, start) && SafeState(g, Visible(disk.files))
      ensures Renamed(env, copy.Some?) ==> Config(g.engine) in disk.files && disk.files[Config(g.engine)] == content
      ensures !Renamed(env, copy.Some?) ==> SameFile(old(disk.files), disk.files, Config(g.engine))
      ensures ok && copy.Some? ==>
        LastKnownGood(g.engine) in disk.files && disk.files[LastKnownGood(g.engine)] == copy.value
      ensures copy.None? ==> SameFile(old(disk.files), disk.files, LastKnownGood(g.engine))
    {
      hide Visible, Shows, SafeSince;
      var config, lastKnownGood := Config(engine), LastKnownGood(engine);
      SafeAtFirst(g, disk.trail);
      SeenAsIs(disk.files, config);
      SeenAsIs(disk.files, lastKnownGood);
      ok := Write(candidate, content, env.candidate, g, start);
      SeenAsIs(disk.files, config);
      SeenAsIs(disk.files, lastKnownGood);
      if !ok { return; }
      if copy.Some? {
        ok := Write(lastKnownGood, copy.value, env.backup, g, start);
        SeenAsIs(disk.files, config);
        SeenAsIs(disk.files, lastKnownGood);
        if !ok { return; }
      }
      SeenAsIs(disk.files, candidate);
      ghost var trail := disk.trail;
      ok := disk.Replace(candidate, config, env.replace);
      SeenAsIs(disk.files, config);
      SeenAsIs(disk.files, lastKnownGood);
      assert disk.trail[..|trail|] == trail;
      SafeShown(g, disk.trail, start, |trail|, {Visible(disk.files)});
    }

    /** The rollback: the old bytes again, then the same handshake. */
    method Restore(engine: Engine, previous: Bytes, env: Answers, ghost g: Goal, ghost start: nat) returns (ok: bool)
      requires engine == g.engine && start <= |disk.trail| && Config(g.engine) in g.before
        && g.before[Config(g.engine)] == previous
      requires SafeSince(g, disk.trail, start) && SafeState(g, Visible(disk.files))
      requires Config(g.engine) in disk.files
      modifies disk
      ensures ok == (env.restore.Works? && env.acceptedBack)
      ensures old(disk.trail) <= disk.trail
      ensures SafeSince(g, disk.trail, start) && SafeState(g, Visible(disk.files))
      ensures Config(g.engine) in disk.files
      ensures disk.files[Config(g.engine)] ==
        if Renames(env.restore) then previous else old(disk.files)[Config(g.engine)]
    {
      hide Visible, SafeState, SafeSince;
      RestoringIsSafe(g, Visible(disk.files));
      SeenAsIs(disk.files, Config(g.engine));
      ok := Write(Config(engine), previous, env.restore, g, start);
      SeenAsIs(disk.files, Config(g.engine));
      ok := ok && env.acceptedBack;
    }
  }

  class Provider {
    const engine: Engine
    const sha256: Bytes -> Hash
    const disk: Disk
    const steps: Steps

    constructor (engine: Engine, sha256: Bytes -> Hash, disk: Disk)
      ensures this.engine == engine && this.sha256 == sha256 && this.disk == disk && steps.disk == disk
    {
      this.engine, this.sha256, this.disk := engine, sha256, disk;
      steps := new Steps(disk);
    }

    /** `apply`. If the process dies the disk is left in one of the states of `trail`;
        the other clauses say what each returned result means. */
    method Apply(desired: Bytes, id: nat, env: Answers) returns (r: ApplyResult)
      requires steps.disk == disk
      modifies disk
      ensures old(disk.trail) <= disk.trail
      ensures SafeSince(Goal(Visible(old(disk.files)), engine, desired, true), disk.trail, |old(disk.trail)|)
      ensures SafeState(Goal(Visible(old(disk.files)), engine, desired, true), Visible(disk.files))
      ensures r.desiredHash == sha256(desired)
      ensures r.previousHash ==
        if env.readable && Config(engine) in old(disk.files) then Some(sha256(old(disk.files)[Config(engine)]))
        else None
      ensures r.previousHash.None? ==> disk.files == old(disk.files) && r.status.Failed? && r.rollback.NotRequired?
      ensures r.previousHash.Some? ==>
        Config(engine) in disk.files
        && (r.status.Succeeded? <==> Replaced(env, true) && env.accepted)
        && (r.status.RolledBack? <==> Replaced(env, true) && !env.accepted && env.restore.Works? && env.acceptedBack)
        && (r.rollback.RollbackFailed? <==>
          Replaced(env, true) && !env.accepted && !(env.restore.Works? && env.acceptedBack))
        && (r.rollback.RollbackSucceeded? <==> r.status.RolledBack?)
      ensures r.status.Succeeded? ==> disk.files[Config(engine)] == desired
      ensures r.status.RolledBack? ==> disk.files[Config(engine)] == old(disk.files)[Config(engine)]
      ensures r.previousHash.Some? && r.status.Failed? && r.rollback.NotRequired? ==>
        disk.files[Config(engine)] == if Renamed(env, true) then desired else old(disk.files)[Config(engine)]
      ensures r.rollback.RollbackFailed? ==>
        disk.files[Config(engine)] == if Renames(env.restore) then old(disk.files)[Config(engine)] else desired
      ensures env.removes && r.previousHash.Some? ==> Candidate(engine, id) !in disk.files
    {
      hide Visible, Shows, SafeState, SafeSince;
      ghost var g, start := Goal(Visible(disk.files), engine, desired, true), |disk.trail|;
      SafeAtFirst(g, disk.trail);
      var read := disk.Read(Config(engine), env.readable);
      if read.None? { return ApplyResult(Failed, sha256(desired), None, NotRequired); }
      var previous := read.value;
      SeenAsIs(disk.files, Config(engine));
      var wroteCurrent := steps.Install(engine, desired, Some(previous), Candidate(engine, id), env, g, start);
      if wroteCurrent && env.accepted {
        r := ApplyResult(Succeeded, sha256(desired), Some(sha256(previous)), NotRequired);
      } else if !wroteCurrent {
        r := ApplyResult(Failed, sha256(desired), Some(sha256(previous)), NotRequired);
      } else {
        var restored := steps.Restore(engine, previous, env, g, start);
        r := if restored
          then ApplyResult(RolledBack, sha256(desired), Some(sha256(previous)), RollbackSucceeded)
          else ApplyResult(Failed, sha256(desired), Some(sha256(previous)), RollbackFailed);
      }
      steps.CleanUp(Candidate(engine, id), env.removes, g, start);
    }
  }

  /** One engine of the agent's request; `content` is the serialised config. */
  datatype EngineState = EngineState(engine: Engine, enabled: bool, content: Bytes, providedHash: Option<Hash>)
  datatype Outcome = Applied(hash: Hash) | Threw(message: string)
  datatype EngineResult = EngineResult(engine: Engine, success: bool, errorMessage: Option<string>)
  datatype AgentResult = AgentResult(
    revision: int, success: bool, configHash: Option<Hash>, engineResults: seq<EngineResult>,
    errorMessage: Option<string>)

  /** The old config the agent copies and can restore: an empty one counts as none. */
  function Kept(files: Files, engine: Engine): Option<Bytes> {
    if Config(engine) in files && files[Config(engine)] != "" then Some(files[Config(engine)]) else None
  }

  /** Nobody was told of an error, so the engine runs the new config. */
  predicate AgentSucceeds(env: Answers, copied: bool, skipReload: bool) {
    Replaced(env, copied) && (skipReload || env.accepted)
  }

  predicate Distinct(engines: seq<EngineState>) {
    forall i, j :: 0 <= i < j < |engines| ==> engines[i].engine != engines[j].engine
  }

  predicate SameEngine(before: Files, v: Files, engine: Engine) {
    SameFile(before, v, Config(engine)) && SameFile(before, v, LastKnownGood(engine))
  }

  function GoalOf(before: Files, e: EngineState): Goal { Goal(before, e.engine, e.content, false) }

  /** The first `n` engines may have been worked on, the others are as they were. */
  ghost predicate Progress(before: Files, v: Files, engines: seq<EngineState>, n: nat)
    requires n <= |engines|
  {
    (forall j :: 0 <= j < n && engines[j].enabled ==> EngineSafe(GoalOf(before, engines[j]), v))
    && (forall e: Engine :: (forall j :: 0 <= j < n && engines[j].enabled ==> engines[j].engine != e) ==>
      SameEngine(before, v, e))
  }

  ghost predicate ProgressSince(before: Files, trail: seq<Files>, start: nat, engines: seq<EngineState>, n: nat)
    requires n <= |engines|
  {
    forall i :: start <= i < |trail| ==> Progress(before, Visible(trail[i]), engines, n)
  }

  lemma ProgressGoesOn(before: Files, v0: Files, v: Files, engines: seq<EngineState>, n: nat)
    requires n < |engines| && Distinct(engines) && Progress(before, v0, engines, n)
    requires v == v0 || (engines[n].enabled && SafeState(GoalOf(v0, engines[n]), v))
    ensures Progress(before, v, engines, n + 1)
  {
    var e := engines[n].engine;
    assert SameEngine(before, v0, e);
    forall j | 0 <= j < n + 1 && engines[j].enabled ensures EngineSafe(GoalOf(before, engines[j]), v) {
      if j < n { assert SameEngine(v0, v, engines[j].engine); }
    }
    forall e': Engine | forall j :: 0 <= j < n + 1 && engines[j].enabled ==> engines[j].engine != e'
      ensures SameEngine(before, v, e')
    {
      assert forall j :: 0 <= j < n && engines[j].enabled ==> engines[j].engine != e';
      assert SameEngine(before, v0, e');
      assert v != v0 ==> engines[n].engine != e' && SameEngine(v0, v, e');
    }
  }

  lemma ProgressGoesOnAll(before: Files, trail0: seq<Files>, v0: Files, trail: seq<Files>, v: Files, start: nat,
      engines: seq<EngineState>, n: nat)
    requires n < |engines| && Distinct(engines) && start <= |trail0|
    requires Progress(before, v0, engines, n) && ProgressSince(before, trail0, start, engines, n)
    requires trail0 <= trail
    requires (v == v0 && trail == trail0) ||
             (engines[n].enabled && SafeState(GoalOf(v0, engines[n]), v)
               && SafeSince(GoalOf(v0, engines[n]), trail, |trail0|))
    ensures Progress(before, v, engines, n + 1) && ProgressSince(before, trail, start, engines, n + 1)
  {
    hide Progress, SafeState, Visible, Distinct;
    ProgressGoesOn(before, v0, v, engines, n);
    forall i | start <= i < |trail| ensures Progress(before, Visible(trail[i]), engines, n + 1) {
      if i < |trail0| {
        ProgressGoesOn(before, Visible(trail0[i]), Visible(trail0[i]), engines, n);
      } else {
        ProgressGoesOn(before, v0, Visible(trail[i]), engines, n);
      }
    }
  }

  function HashOf(sha256: Bytes -> Hash, e: EngineState): Hash {
    if e.providedHash.Some? then e.providedHash.value else sha256(e.content)
  }

  predicate Hit(e: EngineState, r: EngineResult) { e.enabled && r.success }

  predicate ResultOf(r: EngineResult, e: EngineState) {
    r.engine == e.engine && (r.success <==> r.errorMessage.None?) && (!e.enabled ==> r.success)
  }

  /** The message of the first entry that failed. */
  predicate IsFirstError(error: Option<string>, results: seq<EngineResult>) {
    if results == [] then error.None?
    else if results[0].success then IsFirstError(error, results[1..])
    else error == results[0].errorMessage
  }

  lemma {:induction false} FirstErrorGoesOn(error: Option<string>, results: seq<EngineResult>, r: EngineResult)
    requires IsFirstError(error, results)
    requires forall i :: 0 <= i < |results| ==> (results[i].success <==> results[i].errorMessage.None?)
    requires r.success <==> r.errorMessage.None?
    ensures IsFirstError(if error.None? then r.errorMessage else error, results + [r])
  {
    if results != [] {
      assert (results + [r])[1..] == results[1..] + [r];
      if results[0].success { FirstErrorGoesOn(error, results[1..], r); }
    }
  }

  /** Each engine whose last entry went in has that entry's content on disk. */
  ghost predicate Installed(files: Files, engines: seq<EngineState>, results: seq<EngineResult>, n: nat)
    requires n <= |engines| && n <= |results|
  {
    forall j :: (
      0 <= j < n && Hit(engines[j], results[j])
      && (forall k :: j < k < n && engines[k].enabled ==> engines[k].engine != engines[j].engine) ==>
      Config(engines[j].engine) in files && files[Config(engines[j].engine)] == engines[j].content)
  }

  /** Each engine's hash is the one of its last entry that went in. */
  ghost predicate LastHashes(hashes: map<Engine, Hash>, sha256: Bytes -> Hash, engines: seq<EngineState>,
      results: seq<EngineResult>, n: nat)
    requires n <= |engines| && n <= |results|
  {
    forall j :: (
      0 <= j < n && Hit(engines[j], results[j])
      && (forall k :: j < k < n && Hit(engines[k], results[k]) ==> engines[k].engine != engines[j].engine) ==>
      engines[j].engine in hashes && hashes[engines[j].engine] == HashOf(sha256, engines[j]))
  }

  ghost predicate IsLastHash(hash: Option<Hash>, sha256: Bytes -> Hash, engines: seq<EngineState>,
      results: seq<EngineResult>, n: nat)
    requires n <= |engines| && n <= |results|
  {
    (hash.None? && forall j :: 0 <= j < n ==> !Hit(engines[j], results[j]))
    || (exists j ::
          0 <= j < n && Hit(engines[j], results[j]) && hash == Some(HashOf(sha256, engines[j]))
          && (forall k :: j < k < n ==> !Hit(engines[k], results[k])))
  }

  lemma LastHashesGoOn(
    hashes0: map<Engine, Hash>, hashes: map<Engine, Hash>, sha256: Bytes -> Hash,
    engines: seq<EngineState>, results0: seq<EngineResult>, results: seq<EngineResult>, n: nat)
    requires n == |results0| < |engines| && n < |results| && results0 == results[..n]
    requires LastHashes(hashes0, sha256, engines, results0, n)
    requires hashes ==
      if Hit(engines[n], results[n]) then hashes0[engines[n].engine := HashOf(sha256, engines[n])] else hashes0
    ensures LastHashes(hashes, sha256, engines, results, n + 1)
  {
    hide HashOf;
    assert forall j :: 0 <= j < n ==> results0[j] == results[j];
  }

  lemma LastHashGoesOn(
    hash0: Option<Hash>, hash: Option<Hash>, sha256: Bytes -> Hash,
    engines: seq<EngineState>, results0: seq<EngineResult>, results: seq<EngineResult>, n: nat)
    requires n == |results0| < |engines| && n < |results| && results0 == results[..n]
    requires IsLastHash(hash0, sha256, engines, results0, n)
    requires hash == if Hit(engines[n], results[n]) then Some(HashOf(sha256, engines[n])) else hash0
    ensures IsLastHash(hash, sha256, engines, results, n + 1)
  {
    hide HashOf;
    assert forall j :: 0 <= j < n ==> results0[j] == results[j];
  }

  lemma InstalledGoesOn(f0: Files, f: Files, engines: seq<EngineState>, results0: seq<EngineResult>,
      results: seq<EngineResult>, n: nat)
    requires n == |results0| < |engines| && n < |results| && results0 == results[..n]
      && Installed(f0, engines, results0, n)
    requires if engines[n].enabled then SafeState(GoalOf(Visible(f0), engines[n]), Visible(f)) else f == f0
    requires Hit(engines[n], results[n]) ==>
      Config(engines[n].engine) in f && f[Config(engines[n].engine)] == engines[n].content
    ensures Installed(f, engines, results, n + 1)
  {
    hide Visible;
    assert forall j :: 0 <= j < n ==> results0[j] == results[j];
    forall j | 0 <= j < n + 1 && Hit(engines[j], results[j])
      && (forall k :: j < k < n + 1 && engines[k].enabled ==> engines[k].engine != engines[j].engine)
      ensures Config(engines[j].engine) in f && f[Config(engines[j].engine)] == engines[j].content
    {
      if j < n {
        SeenAsIs(f0, Config(engines[j].engine));
        SeenAsIs(f, Config(engines[j].engine));
        assert engines[n].enabled ==> !Owned(Config(engines[j].engine), engines[n].engine);
      }
    }
  }

  lemma NothingDone(before: Files, trail: seq<Files>, files: Files, hashes: map<Engine, Hash>, sha256: Bytes -> Hash,
      engines: seq<EngineState>)
    ensures Progress(before, before, engines, 0) && ProgressSince(before, trail, |trail|, engines, 0)
    ensures Installed(files, engines, [], 0) && LastHashes(hashes, sha256, engines, [], 0) && IsFirstError(None, [])
      && IsLastHash(None, sha256, engines, [], 0)
  {
  }

  lemma SafeHasConfig(g: Goal, files: Files)
    requires SafeState(g, Visible(files)) && Config(g.engine) in g.before
    ensures Config(g.engine) in files
  {
  }

  class ApplyService {
    const skipReload: bool
    const sha256: Bytes -> Hash
    const disk: Disk
    const steps: Steps
    var appliedRevision: int
    var lastConfigHashes: map<Engine, Hash>

    constructor (skipReload: bool, sha256: Bytes -> Hash, disk: Disk)
      ensures this.skipReload == skipReload && this.sha256 == sha256 && this.disk == disk && steps.disk == disk
      ensures appliedRevision == 0 && lastConfigHashes == map[]
    {
      this.skipReload, this.sha256, this.disk := skipReload, sha256, disk;
      appliedRevision, lastConfigHashes := 0, map[];
      steps := new Steps(disk);
    }

    /** `applyEngine`. The old config is copied and restored exactly when it is not empty. */
    method ApplyEngine(e: EngineState, env: Answers) returns (r: Outcome)
      requires steps.disk == disk
      modifies disk
      ensures old(disk.trail) <= disk.trail
      ensures SafeSince(GoalOf(Visible(old(disk.files)), e), disk.trail, |old(disk.trail)|)
      ensures SafeState(GoalOf(Visible(old(disk.files)), e), Visible(disk.files))
      ensures r.Applied? <==>
        IsSha256Hex(HashOf(sha256, e)) && env.readable
          && AgentSucceeds(env, Kept(old(disk.files), e.engine).Some?, skipReload)
      ensures r.Applied? ==>
        r.hash == HashOf(sha256, e) && Config(e.engine) in disk.files && disk.files[Config(e.engine)] == e.content
      ensures r.Applied? && Config(e.engine) in old(disk.files) ==>
        (Backed(disk.files, e.engine, old(disk.files)[Config(e.engine)], e.content) <==>
         old(disk.files)[Config(e.engine)] != "" || e.content == ""
         || (LastKnownGood(e.engine) in old(disk.files) && old(disk.files)[LastKnownGood(e.engine)] == ""))
      ensures r.Threw? && Kept(old(disk.files), e.engine).Some? && Renames(env.restore) ==>
        SameFile(old(disk.files), disk.files, Config(e.engine))
      ensures r.Threw? && IsSha256Hex(HashOf(sha256, e)) && env.readable && Renamed(env, false) ==>
        Kept(old(disk.files), e.engine).None? ==>
        Config(e.engine) in disk.files && disk.files[Config(e.engine)] == e.content
    {
      hide Visible, Shows, SafeState, SafeSince;
      ghost var g, start := GoalOf(Visible(disk.files), e), |disk.trail|;
      SafeAtFirst(g, disk.trail);
      SeenAsIs(disk.files, Config(e.engine));
      var hash := HashOf(sha256, e);
      if !IsSha256Hex(hash) { return Threw("configHash must be a 64-char lowercase hex sha256"); }
      if !env.readable { return Threw("read failed"); }
      var previous := disk.Read(Config(e.engine), true);
      var kept := if previous.Some? && previous.value != "" then previous else None;
      var candidate := Candidate(e.engine, 0);
      var installed := steps.Install(e.engine, e.content, kept, candidate, env, g, start);
      if installed && (skipReload || env.accepted) { return Applied(hash); }
      if kept.Some? {
        SafeHasConfig(g, disk.files);
        var restored := steps.Restore(e.engine, kept.value, env, g, start);
      }
      steps.CleanUp(candidate, env.removes, g, start);
      r := Threw("apply failed");
    }

    /** `apply`: every enabled engine in turn, whatever the others did. */
    method Apply(revision: int, engines: seq<EngineState>, envs: seq<Answers>) returns (r: AgentResult)
      requires steps.disk == disk && |envs| == |engines|
      modifies this, disk
      ensures Distinct(engines) ==>
        old(disk.trail) <= disk.trail
        && ProgressSince(Visible(old(disk.files)), disk.trail, |old(disk.trail)|, engines, |engines|)
        && Progress(Visible(old(disk.files)), Visible(disk.files), engines, |engines|)
      ensures |r.engineResults| == |engines| && r.revision == revision
      ensures forall i :: 0 <= i < |engines| ==>
        ResultOf(r.engineResults[i], engines[i])
      ensures r.success <==> forall i :: 0 <= i < |engines| ==> r.engineResults[i].success
      ensures appliedRevision == if r.success then revision else old(appliedRevision)
      ensures (r.errorMessage.None? <==> r.success) && IsFirstError(r.errorMessage, r.engineResults)
      ensures Installed(disk.files, engines, r.engineResults, |engines|)
      ensures LastHashes(lastConfigHashes, sha256, engines, r.engineResults, |engines|)
      ensures IsLastHash(r.configHash, sha256, engines, r.engineResults, |engines|)
    {
      hide Visible, SafeState, SafeSince, Progress, ProgressSince, Distinct, Installed, LastHashes, IsLastHash, Backed,
        HashOf, IsSha256Hex, IsFirstError;
      ghost var before, start := Visible(disk.files), |disk.trail|;
      NothingDone(before, disk.trail, disk.files, lastConfigHashes, sha256, engines);
      var results: seq<EngineResult> := [];
      var overallSuccess, firstError, lastHash := true, None, None;
      var i := 0;
      while i < |engines|
        invariant 0 <= i <= |engines| && |results| == i
        invariant old(disk.trail) <= disk.trail
        invariant Distinct(engines) ==>
          ProgressSince(before, disk.trail, start, engines, i) && Progress(before, Visible(disk.files), engines, i)
        invariant forall j :: 0 <= j < i ==> ResultOf(results[j], engines[j])
        invariant overallSuccess <==> forall j :: 0 <= j < i ==> results[j].success
        invariant (firstError.None? <==> overallSuccess) && IsFirstError(firstError, results)
        invariant appliedRevision == old(appliedRevision)
        invariant Installed(disk.files, engines, results, i)
        invariant LastHashes(lastConfigHashes, sha256, engines, results, i)
        invariant IsLastHash(lastHash, sha256, engines, results, i)
      {
        var e := engines[i];
        ghost var trail0, files0, v0 := disk.trail, disk.files, Visible(disk.files);
        ghost var results0, hashes0, hash0, error0 := results, lastConfigHashes, lastHash, firstError;
        if !e.enabled {
          results := results + [EngineResult(e.engine, true, None)];
        } else {
          var outcome := ApplyEngine(e, envs[i]);
          match outcome
          case Applied(hash) =>
            lastConfigHashes := lastConfigHashes[e.engine := hash];
            lastHash := Some(hash);
            results := results + [EngineResult(e.engine, true, None)];
          case Threw(message) =>
            overallSuccess := false;
            firstError := if firstError.None? then Some(message) else firstError;
            results := results + [EngineResult(e.engine, false, Some(message))];
        }
        FirstErrorGoesOn(error0, results0, results[i]);
        InstalledGoesOn(files0, disk.files, engines, results0, results, i);
        LastHashesGoOn(hashes0, lastConfigHashes, sha256, engines, results0, results, i);
        LastHashGoesOn(hash0, lastHash, sha256, engines, results0, results, i);
        if Distinct(engines) {
          ProgressGoesOnAll(before, trail0, v0, disk.trail, Visible(disk.files), start, engines, i);
        }
        i := i + 1;
      }
      if overallSuccess { appliedRevision := revision; }
      r := AgentResult(revision, overallSuccess, lastHash, results, firstError);
    }
  }
}
