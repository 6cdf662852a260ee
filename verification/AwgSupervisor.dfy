/** Reconciling network interfaces with a config: `apply_config`, `load_state` and
    `save_state` of deploy/amneziawg/supervisor.py. How each `awg-quick` command ends is
    an input. A dict is its keys in insertion order. */
module AwgSupervisor {
  import opened Options
  import opened Sorting

  type Iface = string

  datatype Command = Down(iface: Iface) | Up(iface: Iface)

  /** `awg-quick` exits with 0, exits with another code, or is given up on after the
      timeout; in the last two cases it may or may not have changed the interface. */
  datatype Answer = Done | Refused(took: bool) | TimedOut(took: bool)

  type Answers = Command -> Answer

  /** One inbound of the config: not a dict or without a tag, without what a
      configuration file needs, or proper. */
  datatype Inbound = Skipped | Unrenderable | Inbound(tag: string)

  datatype Saving = Saved | KeptOld | Lost

  /** The interfaces that are up and those the state file names. */
  datatype State = State(up: set<Iface>, saved: seq<Iface>)

  // ---------------------------------------------------------------- commands

  predicate TookEffect(a: Answer) { a.Done? || a.took }

  function UpAfter(up: set<Iface>, c: Command, a: Answer): set<Iface> {
    if !TookEffect(a) then up else if c.Up? then up + {c.iface} else up - {c.iface}
  }

  /** `run_awg_quick` raises for a timeout and for an `up` that fails. */
  predicate Raises(c: Command, a: Answer) { a.TimedOut? || (a.Refused? && c.Up?) }

  /** `up`: the interfaces afterwards. `clean`: no `up` met an interface that was up. */
  datatype Execution = Execution(up: set<Iface>, ok: bool, clean: bool)

  /** Commands in order, up to the first that raises. */
  function Execute(up: set<Iface>, commands: seq<Command>, answers: Answers): Execution
    decreases |commands|
  {
    if commands == [] then Execution(up, true, true)
    else
      var c, a := commands[0], answers(commands[0]);
      var clean := !(c.Up? && c.iface in up);
      if Raises(c, a) then Execution(UpAfter(up, c, a), false, clean)
      else
        var rest := Execute(UpAfter(up, c, a), commands[1..], answers);
        rest.(clean := clean && rest.clean)
  }

  lemma {:induction false} ExecuteMore(up: set<Iface>, commands: seq<Command>, c: Command, answers: Answers)
    requires Execute(up, commands, answers).ok
    ensures var e := Execute(up, commands, answers);
      Execute(up, commands + [c], answers) ==
      Execution(UpAfter(e.up, c, answers(c)), !Raises(c, answers(c)), e.clean && !(c.Up? && c.iface in e.up))
    decreases |commands|
  {
    if commands == [] {
      assert commands + [c] == [c] && [c][1..] == [];
    } else {
      assert (commands + [c])[1..] == commands[1..] + [c];
      ExecuteMore(UpAfter(up, commands[0], answers(commands[0])), commands[1..], c, answers);
    }
  }

  /** What raises stays raised. */
  lemma {:induction false} ExecuteStops(up: set<Iface>, commands: seq<Command>, more: seq<Command>, answers: Answers)
    ensures !Execute(up, commands, answers).ok ==>
      Execute(up, commands + more, answers) == Execute(up, commands, answers)
    decreases |commands|
  {
    if commands != [] {
      assert (commands + more)[1..] == commands[1..] + more;
      ExecuteStops(UpAfter(up, commands[0], answers(commands[0])), commands[1..], more, answers);
    }
  }

  // ---------------------------------------------------------------- apply_config

  function Removals(loaded: seq<Iface>, desired: seq<Iface>): seq<Command> {
    if loaded == [] then []
    else
      var last := loaded[|loaded| - 1];
      Removals(loaded[..|loaded| - 1], desired) + if last in desired then [] else [Down(last)]
  }

  function Restarts(loaded: seq<Iface>, desired: seq<Iface>): seq<Command> {
    if desired == [] then []
    else
      var i := desired[|desired| - 1];
      Restarts(loaded, desired[..|desired| - 1]) + (if i in loaded then [Down(i)] else []) + [Up(i)]
  }

  /** Everything `apply_config` will do if nothing raises. */
  function Plan(loaded: seq<Iface>, desired: seq<Iface>): seq<Command> {
    Removals(loaded, desired) + Restarts(loaded, desired)
  }

  /** The keys of `desired`: none if some inbound cannot be rendered. */
  function Desired(inbounds: seq<Inbound>, name: string -> Iface): (d: Option<seq<Iface>>)
    ensures d.Some? <==> Unrenderable !in inbounds
    ensures d.Some? ==> forall i :: i in d.value <==>
      exists k :: 0 <= k < |inbounds| && inbounds[k].Inbound? && name(inbounds[k].tag) == i
    ensures d.Some? ==> NoRepeats(d.value)
  {
    if inbounds == [] then Some([])
    else
      var before, last := Desired(inbounds[..|inbounds| - 1], name), inbounds[|inbounds| - 1];
      assert inbounds == inbounds[..|inbounds| - 1] + [last];
      if before.None? || last.Unrenderable? then None
      else if last.Skipped? || name(last.tag) in before.value then before
      else Some(before.value + [name(last.tag)])
  }

  function Loaded(s: State, readable: bool): seq<Iface> { if readable then s.saved else [] }

  function AfterSaving(s: State, desired: seq<Iface>, saving: Saving): State {
    s.(saved := if saving.Saved? then desired else if saving.KeptOld? then s.saved else [])
  }

  datatype Env = Env(inbounds: seq<Inbound>, readable: bool, answers: Answers, saving: Saving)

  datatype Result = Result(state: State, ok: bool, clean: bool)

  function Apply(s: State, env: Env, name: string -> Iface): Result {
    var desired := Desired(env.inbounds, name);
    if desired.None? then Result(s, false, true)
    else
      var e := Execute(s.up, Plan(Loaded(s, env.readable), desired.value), env.answers);
      if !e.ok then Result(s.(up := e.up), false, e.clean)
      else Result(AfterSaving(s.(up := e.up), desired.value, env.saving), env.saving.Saved?, e.clean)
  }

  class Supervisor {
    const name: string -> Iface
    var up: set<Iface>
    var saved: seq<Iface>
    /** No `up` so far met an interface that was up. */
    ghost var clean: bool

    constructor (name: string -> Iface, up: set<Iface>, saved: seq<Iface>)
      ensures this.name == name && this.up == up && this.saved == saved && clean
    {
      this.name, this.up, this.saved, clean := name, up, saved, true;
    }

    ghost function Now(): State
      reads this
    {
      State(up, saved)
    }

    /** `run_awg_quick`; `ok` is false if it raises. */
    method RunAwgQuick(c: Command, answers: Answers) returns (ok: bool)
      modifies this`up, this`clean
      ensures up == UpAfter(old(up), c, answers(c)) && ok == !Raises(c, answers(c))
      ensures clean == (old(clean) && !(c.Up? && c.iface in old(up)))
    {
      var answer := answers(c);
      clean := clean && !(c.Up? && c.iface in up);
      if answer.Done? || answer.took {
        up := if c.Up? then up + {c.iface} else up - {c.iface};
      }
      ok := !(answer.TimedOut? || (answer.Refused? && c.Up?));
    }

    method LoadState(readable: bool) returns (ifaces: seq<Iface>)
      ensures ifaces == Loaded(Now(), readable)
    {
      ifaces := if readable then saved else [];
    }

    method SaveState(ifaces: seq<Iface>, saving: Saving) returns (ok: bool)
      modifies this`saved
      ensures Now() == AfterSaving(old(Now()), ifaces, saving) && ok == saving.Saved?
    {
      ok := saving.Saved?;
      if saving.Saved? { saved := ifaces; } else if saving.Lost? { saved := []; }
    }

    method BuildDesired(inbounds: seq<Inbound>) returns (desired: Option<seq<Iface>>)
      ensures desired == Desired(inbounds, name)
    {
      var ifaces: seq<Iface> := [];
      var k := 0;
      while k < |inbounds|
        invariant 0 <= k <= |inbounds|
        invariant Desired(inbounds[..k], name) == Some(ifaces)
      {
        assert inbounds[..k + 1][..k] == inbounds[..k];
        if inbounds[k].Unrenderable? { return None; }
        if inbounds[k].Inbound? && name(inbounds[k].tag) !in ifaces {
          ifaces := ifaces + [name(inbounds[k].tag)];
        }
        k := k + 1;
      }
      assert inbounds[..k] == inbounds;
      desired := Some(ifaces);
    }

    /** The first loop: interfaces no longer wanted. */
    method RemoveOthers(previous: seq<Iface>, desired: seq<Iface>, answers: Answers) returns (ok: bool)
      requires clean
      modifies this`up, this`clean
      ensures Execution(up, ok, clean) == Execute(old(up), Removals(previous, desired), answers)
    {
      hide Execute, UpAfter, Raises;
      ghost var done: seq<Command> := [];
      ExecuteNothing(up, answers);
      var k := 0;
      while k < |previous|
        invariant 0 <= k <= |previous|
        invariant done == Removals(previous[..k], desired)
        invariant Execute(old(up), done, answers) == Execution(up, true, clean)
      {
        assert previous[..k + 1][..k] == previous[..k];
        if previous[k] !in desired {
          ExecuteMore(old(up), done, Down(previous[k]), answers);
          done := done + [Down(previous[k])];
          ok := RunAwgQuick(Down(previous[k]), answers);
          if !ok {
            assert done == Removals(previous[..k + 1], desired);
            RemovalsPrefix(previous, desired, k + 1);
            StopsIn(old(up), done, Removals(previous, desired), answers);
            return false;
          }
        } else {
          assert done + [] == done;
        }
        k := k + 1;
      }
      assert previous[..k] == previous;
      ok := true;
    }

    /** The second loop: every wanted interface goes down, if it was saved, and up. */
    method RestartAll(previous: seq<Iface>, desired: seq<Iface>, answers: Answers) returns (ok: bool)
      requires clean
      modifies this`up, this`clean
      ensures Execution(up, ok, clean) == Execute(old(up), Restarts(previous, desired), answers)
    {
      hide Execute, UpAfter, Raises;
      ghost var plan, done: seq<Command> := Restarts(previous, desired), [];
      ExecuteNothing(up, answers);
      var k := 0;
      while k < |desired|
        invariant 0 <= k <= |desired|
        invariant done == Restarts(previous, desired[..k])
        invariant Execute(old(up), done, answers) == Execution(up, true, clean)
      {
        ghost var next := Restarts(previous, desired[..k + 1]);
        assert desired[..k + 1][..k] == desired[..k];
        assert next == done + (if desired[k] in previous then [Down(desired[k])] else []) + [Up(desired[k])];
        RestartsPrefix(previous, desired, k + 1);
        if desired[k] in previous {
          ExecuteMore(old(up), done, Down(desired[k]), answers);
          done := done + [Down(desired[k])];
          ok := RunAwgQuick(Down(desired[k]), answers);
          if !ok {
            assert done <= next;
            StopsIn(old(up), done, plan, answers);
            return false;
          }
        }
        assert next == done + [Up(desired[k])];
        ExecuteMore(old(up), done, Up(desired[k]), answers);
        done := next;
        ok := RunAwgQuick(Up(desired[k]), answers);
        if !ok {
          StopsIn(old(up), done, plan, answers);
          return false;
        }
        k := k + 1;
      }
      assert desired[..k] == desired;
      ok := true;
    }

    /** `apply_config`; `ok` is false if it raises. */
    method ApplyConfig(env: Env) returns (ok: bool)
      requires clean
      modifies this
      ensures Result(Now(), ok, clean) == Apply(old(Now()), env, name)
    {
      hide Execute, Removals, Restarts;
      var desired := BuildDesired(env.inbounds);
      if desired.None? { return false; }
      var previous := LoadState(env.readable);
      ghost var removals, restarts := Removals(previous, desired.value), Restarts(previous, desired.value);
      ok := RemoveOthers(previous, desired.value, env.answers);
      if !ok {
        StopsIn(old(up), removals, removals + restarts, env.answers);
        return false;
      }
      RemovalsClean(old(up), previous, desired.value, env.answers);
      ExecuteAppend(old(up), removals, restarts, env.answers);
      ok := RestartAll(previous, desired.value, env.answers);
      if !ok { return false; }
      ok := SaveState(desired.value, env.saving);
    }
  }

  lemma {:induction false} RemovalsClean(up: set<Iface>, loaded: seq<Iface>, desired: seq<Iface>, answers: Answers)
    ensures Execute(up, Removals(loaded, desired), answers).clean
  {
    RemovalsEffect(up, loaded, desired, answers);
  }

  lemma ExecuteNothing(up: set<Iface>, answers: Answers)
    ensures Execute(up, [], answers) == Execution(up, true, true)
  {
  }

  lemma StopsIn(up: set<Iface>, commands: seq<Command>, plan: seq<Command>, answers: Answers)
    requires commands <= plan && !Execute(up, commands, answers).ok
    ensures Execute(up, plan, answers) == Execute(up, commands, answers)
  {
    ExecuteStops(up, commands, plan[|commands|..], answers);
    assert plan == commands + plan[|commands|..];
  }

  lemma {:induction false} RemovalsPrefix(loaded: seq<Iface>, desired: seq<Iface>, n: nat)
    requires n <= |loaded|
    ensures Removals(loaded[..n], desired) <= Removals(loaded, desired)
  {
    if n < |loaded| {
      assert loaded[..|loaded| - 1][..n] == loaded[..n];
      RemovalsPrefix(loaded[..|loaded| - 1], desired, n);
    } else {
      assert loaded[..n] == loaded;
    }
  }

  lemma {:induction false} RestartsPrefix(loaded: seq<Iface>, desired: seq<Iface>, n: nat)
    requires n <= |desired|
    ensures Restarts(loaded, desired[..n]) <= Restarts(loaded, desired)
  {
    if n < |desired| {
      assert desired[..|desired| - 1][..n] == desired[..n];
      RestartsPrefix(loaded, desired[..|desired| - 1], n);
    } else {
      assert desired[..n] == desired;
    }
  }

  // ---------------------------------------------------------------- a successful apply

  function Names(ifaces: seq<Iface>): set<Iface> { set i | i in ifaces }

  /** The interfaces of the state file that their `down` takes away. */
  function Downed(loaded: seq<Iface>, answers: Answers): set<Iface> {
    set i | i in loaded && TookEffect(answers(Down(i)))
  }

  lemma {:induction false} ExecuteAppend(up: set<Iface>, a: seq<Command>, b: seq<Command>, answers: Answers)
    requires Execute(up, a, answers).ok
    ensures var e := Execute(up, a, answers);
      var f := Execute(e.up, b, answers);
      Execute(up, a + b, answers) == f.(clean := e.clean && f.clean)
    decreases |a|
  {
    if a == [] {
      assert a + b == b;
    } else {
      assert (a + b)[1..] == a[1..] + b;
      ExecuteAppend(UpAfter(up, a[0], answers(a[0])), a[1..], b, answers);
    }
  }

  lemma DownedMore(up: set<Iface>, init: seq<Iface>, i: Iface, desired: seq<Iface>, answers: Answers)
    ensures var gone := if TookEffect(answers(Down(i))) && i !in desired then {i} else {};
      up - (Downed(init + [i], answers) - Names(desired)) == (up - (Downed(init, answers) - Names(desired))) - gone
  {
    hide TookEffect;
  }

  lemma {:induction false} RemovalsEffect(up: set<Iface>, loaded: seq<Iface>, desired: seq<Iface>, answers: Answers)
    ensures var e := Execute(up, Removals(loaded, desired), answers);
      e.clean && (e.ok ==> e.up == up - (Downed(loaded, answers) - Names(desired)))
  {
    if loaded == [] {
      assert Downed(loaded, answers) == {};
    } else {
      var init, i := loaded[..|loaded| - 1], loaded[|loaded| - 1];
      var before := Removals(init, desired);
      assert loaded == init + [i];
      assert Removals(loaded, desired) == before + if i in desired then [] else [Down(i)];
      hide Execute, Removals, Downed, Names;
      RemovalsEffect(up, init, desired, answers);
      DownedMore(up, init, i, desired, answers);
      ExecuteStops(up, before, [Down(i)], answers);
      if Execute(up, before, answers).ok { ExecuteMore(up, before, Down(i), answers); }
      assert before + [] == before;
    }
  }

  /** Which `up` meets an interface that is up. */
  predicate MeetsUp(i: Iface, up: set<Iface>, loaded: seq<Iface>, answers: Answers) {
    i in up && !(i in loaded && TookEffect(answers(Down(i))))
  }

  lemma {:induction false} RestartsEffect(up: set<Iface>, loaded: seq<Iface>, desired: seq<Iface>, answers: Answers)
    requires NoRepeats(desired)
    ensures var e := Execute(up, Restarts(loaded, desired), answers);
      e.ok ==>
        e.up == up + Names(desired)
        && (e.clean <==> forall i :: i in desired ==> !MeetsUp(i, up, loaded, answers))
  {
    if desired != [] {
      var init, i := desired[..|desired| - 1], desired[|desired| - 1];
      assert desired == init + [i];
      RestartsEffect(up, loaded, init, answers);
      var before := Restarts(loaded, init);
      var downs := if i in loaded then [Down(i)] else [];
      if Execute(up, before, answers).ok {
        ExecuteOne(Execute(up, before, answers).up, loaded, i, answers);
        ExecuteAppend(up, before, downs + [Up(i)], answers);
        assert Names(desired) == Names(init) + {i};
      } else {
        ExecuteStops(up, before, downs + [Up(i)], answers);
      }
      assert Restarts(loaded, desired) == before + (downs + [Up(i)]);
    }
  }

  lemma ExecuteOne(up: set<Iface>, loaded: seq<Iface>, i: Iface, answers: Answers)
    ensures var e := Execute(up, (if i in loaded then [Down(i)] else []) + [Up(i)], answers);
      e.ok ==> e.up == up + {i} && (e.clean <==> !MeetsUp(i, up, loaded, answers))
  {
    ExecuteNothing(up, answers);
    if i in loaded {
      ExecuteMore(up, [], Down(i), answers);
      assert [] + [Down(i)] == [Down(i)];
      ExecuteStops(up, [Down(i)], [Up(i)], answers);
      if Execute(up, [Down(i)], answers).ok { ExecuteMore(up, [Down(i)], Up(i), answers); }
    } else {
      ExecuteMore(up, [], Up(i), answers);
    }
  }

  /** What all the commands together do if none raises. */
  lemma WholePlan(up: set<Iface>, loaded: seq<Iface>, desired: seq<Iface>, a: Answers)
    requires NoRepeats(desired) && Execute(up, Plan(loaded, desired), a).ok
    ensures var e := Execute(up, Plan(loaded, desired), a);
      e.up == (up - Downed(loaded, a)) + Names(desired)
      && (e.clean <==> forall i :: i in desired ==> !MeetsUp(i, up, loaded, a))
  {
    var removals := Removals(loaded, desired);
    RemovalsEffect(up, loaded, desired, a);
    ExecuteStops(up, removals, Restarts(loaded, desired), a);
    ExecuteAppend(up, removals, Restarts(loaded, desired), a);
    var between := Execute(up, removals, a).up;
    RestartsEffect(between, loaded, desired, a);
    assert Execute(up, removals, a).ok;
    hide Execute, Removals, Restarts, Raises;
    assert (up - (Downed(loaded, a) - Names(desired))) + Names(desired) == (up - Downed(loaded, a)) + Names(desired);
    forall i | i in desired ensures MeetsUp(i, between, loaded, a) <==> MeetsUp(i, up, loaded, a) {
      assert i in Names(desired);
    }
  }

  /** A successful apply leaves the desired interfaces up, and with them those that were
      up and that no `down` took away; and it saves the desired ones. */
  lemma SuccessfulApply(s: State, env: Env, name: string -> Iface)
    requires Apply(s, env, name).ok
    ensures var r := Apply(s, env, name);
      var desired := Desired(env.inbounds, name).value;
      var loaded := Loaded(s, env.readable);
      r.state.saved == desired
      && r.state.up == (s.up - Downed(loaded, env.answers)) + Names(desired)
      && (r.clean <==> forall i :: i in desired ==> !MeetsUp(i, s.up, loaded, env.answers))
  {
    hide Execute, Plan, Desired, Downed, MeetsUp;
    WholePlan(s.up, Loaded(s, env.readable), Desired(env.inbounds, name).value, env.answers);
  }

  // ---------------------------------------------------------------- the state file names what is up

  predicate Tracked(s: State) { s.up <= Names(s.saved) }

  /** The state file can be read and is not lost, and every `down` of an interface that is up
      takes it away. */
  predicate Gentle(s: State, env: Env) {
    env.readable && !env.saving.Lost? && forall i :: i in s.up ==> TookEffect(env.answers(Down(i)))
  }

  /** A successful apply keeps the state file complete exactly if every interface that was up
      and is no longer wanted was read from it and taken down. */
  lemma SuccessKeepsTracked(s: State, env: Env, name: string -> Iface)
    requires Tracked(s) && Apply(s, env, name).ok
    ensures Tracked(Apply(s, env, name).state) <==>
      forall i :: i in s.up ==>
        i in Desired(env.inbounds, name).value || i in Downed(Loaded(s, env.readable), env.answers)
  {
    SuccessfulApply(s, env, name);
    hide Apply, Desired, Downed;
    LeftUp(s.up, Downed(Loaded(s, env.readable), env.answers), Desired(env.inbounds, name).value);
  }

  lemma LeftUp(up: set<Iface>, downed: set<Iface>, wanted: seq<Iface>)
    ensures (up - downed) + Names(wanted) <= Names(wanted) <==> forall i :: i in up ==> i in wanted || i in downed
  {
    if (up - downed) + Names(wanted) <= Names(wanted) {
      forall i | i in up && i !in downed ensures i in wanted { assert i in (up - downed) + Names(wanted); }
    }
  }

  // ---------------------------------------------------------------- any apply, exactly

  /** The commands that are run: all, or those up to the first that raises. */
  function Ran(commands: seq<Command>, answers: Answers): seq<Command>
    decreases |commands|
  {
    if commands == [] then []
    else if Raises(commands[0], answers(commands[0])) then [commands[0]]
    else [commands[0]] + Ran(commands[1..], answers)
  }

  /** The interfaces some `up` brought up. */
  predicate BroughtUp(i: Iface, commands: seq<Command>, answers: Answers) {
    Up(i) in Ran(commands, answers) && TookEffect(answers(Up(i)))
  }

  /** An interface no `down` names is up afterwards if it was before or was brought up. */
  lemma {:induction false} UndownedAfter(up: set<Iface>, commands: seq<Command>, i: Iface, answers: Answers)
    requires Down(i) !in commands
    ensures i in Execute(up, commands, answers).up <==> i in up || BroughtUp(i, commands, answers)
    decreases |commands|
  {
    if commands != [] {
      assert commands == [commands[0]] + commands[1..];
      if !Raises(commands[0], answers(commands[0])) {
        UndownedAfter(UpAfter(up, commands[0], answers(commands[0])), commands[1..], i, answers);
      }
    }
  }

  lemma {:induction false} OkRanAll(up: set<Iface>, commands: seq<Command>, answers: Answers)
    ensures Execute(up, commands, answers).ok <==> forall c :: c in commands ==> !Raises(c, answers(c))
    decreases |commands|
  {
    if commands != [] {
      assert commands == [commands[0]] + commands[1..];
      OkRanAll(UpAfter(up, commands[0], answers(commands[0])), commands[1..], answers);
    }
  }

  /** No command of the apply raises. */
  predicate NoneRaises(s: State, env: Env, wanted: seq<Iface>) {
    forall c :: c in Plan(Loaded(s, env.readable), wanted) ==> !Raises(c, env.answers(c))
  }

  /** When an apply leaves every interface that is up named in the state file, by what the
      commands answered and what became of the file. */
  predicate Completes(s: State, env: Env, wanted: seq<Iface>) {
    var loaded := Loaded(s, env.readable);
    if !NoneRaises(s, env, wanted) || env.saving.KeptOld? then
      forall c :: c in Ran(Plan(loaded, wanted), env.answers) && c.Up? && TookEffect(env.answers(c)) ==>
        c.iface in s.saved
    else if env.saving.Saved? then
      forall i :: i in s.up ==> i in wanted || i in Downed(loaded, env.answers)
    else
      wanted == [] && s.up <= Downed(loaded, env.answers)
  }

  /** Exactly when an apply, successful or failed, keeps the state file complete: no hypothesis
      about the state file, the commands or the saving. */
  lemma ApplyKeepsTrackedExactly(s: State, env: Env, name: string -> Iface)
    requires Tracked(s)
    ensures var wanted := Desired(env.inbounds, name);
      Tracked(Apply(s, env, name).state) <==> wanted.None? || Completes(s, env, wanted.value)
  {
    var wanted := Desired(env.inbounds, name);
    if wanted.Some? {
      var plan := Plan(Loaded(s, env.readable), wanted.value);
      OkRanAll(s.up, plan, env.answers);
      hide Execute, Plan, Desired, Ran;
      if Execute(s.up, plan, env.answers).ok { WholePlan(s.up, Loaded(s, env.readable), wanted.value, env.answers); }
      if !Execute(s.up, plan, env.answers).ok || env.saving.KeptOld? {
        KeepsExactly(s, env, wanted.value);
      } else {
        SavesExactly(s, env, wanted.value);
      }
    }
  }

  lemma KeepsExactly(s: State, env: Env, wanted: seq<Iface>)
    requires Tracked(s)
    ensures var plan := Plan(Loaded(s, env.readable), wanted);
      Execute(s.up, plan, env.answers).up <= Names(s.saved) <==>
      forall c :: c in Ran(plan, env.answers) && c.Up? && TookEffect(env.answers(c)) ==> c.iface in s.saved
  {
    var loaded := Loaded(s, env.readable);
    var plan := Plan(loaded, wanted);
    var up := Execute(s.up, plan, env.answers).up;
    forall i | i !in s.saved ensures i in up <==> BroughtUp(i, plan, env.answers) {
      PlannedFor(loaded, wanted, i);
      UndownedAfter(s.up, plan, i, env.answers);
      assert i !in Names(s.saved);
    }
    hide Execute, Plan, Ran, TookEffect;
    if up <= Names(s.saved) {
      forall c | c in Ran(plan, env.answers) && c.Up? && TookEffect(env.answers(c)) ensures c.iface in s.saved {
        assert c == Up(c.iface) && BroughtUp(c.iface, plan, env.answers);
      }
    } else {
      var i :| i in up && i !in Names(s.saved);
      assert BroughtUp(i, plan, env.answers);
    }
  }

  lemma SavesExactly(s: State, env: Env, wanted: seq<Iface>)
    requires Tracked(s)
    ensures var up := (s.up - Downed(Loaded(s, env.readable), env.answers)) + Names(wanted);
      (up <= Names(wanted) <==>
        forall i :: i in s.up ==> i in wanted || i in Downed(Loaded(s, env.readable), env.answers))
      && (up <= Names([]) <==> wanted == [] && s.up <= Downed(Loaded(s, env.readable), env.answers))
  {
    hide Downed;
    LeftUp(s.up, Downed(Loaded(s, env.readable), env.answers), wanted);
    if wanted != [] { assert wanted[0] in Names(wanted); }
  }

  /** An apply that cannot read the state file forgets what is up, though every command works. */
  lemma UnreadableStateLeavesStray(a: string, answers: Answers)
    ensures var r := Apply(State({a}, [a]), Env([], false, answers, Saved), (t: string) => t);
      r.ok && Stray(r.state, a)
  {
    assert Plan([], []) == [];
    ExecuteNothing({a}, answers);
  }

  /** An apply whose saving truncates the state file forgets what is up, though every command
      works and nothing has changed. */
  lemma TruncatedStateLeavesStray(a: string, answers: Answers)
    requires answers(Down(a)) == Done && answers(Up(a)) == Done
    ensures var r := Apply(State({a}, [a]), Env([Inbound(a)], true, answers, Lost), (t: string) => t);
      !r.ok && r.state.saved == [] && Stray(r.state, a)
  {
    var name := (t: string) => t;
    DesiredMore([], Inbound(a), name);
    assert [] + [Inbound(a)] == [Inbound(a)] && [] + [a] == [a];
    OkRanAll({a}, Plan([a], [a]), answers);
    OneWanted(a);
    hide Desired, Execute, Plan;
    WholePlan({a}, [a], [a], answers);
    assert a in Names([a]);
  }

  lemma OneWanted(a: Iface)
    ensures Plan([a], [a]) == [Down(a), Up(a)]
  {
    assert [a][..0] == [] && a in [a] && Removals([a], [a]) == [] + [];
    assert Restarts([a], []) == [];
    assert Restarts([a], [a]) == [] + [Down(a)] + [Up(a)];
  }

  /** A successful apply whose `down` is refused leaves an interface up that the state file
      no longer names. */
  lemma RefusedDownLeavesStray(a: string, answers: Answers)
    requires answers(Down(a)) == Refused(false)
    ensures var r := Apply(State({a}, [a]), Env([], true, answers, Saved), (t: string) => t);
      r.ok && Stray(r.state, a)
  {
    assert [a][..0] == [] && Removals([a], []) == [] + [Down(a)] && Plan([a], []) == [Down(a)];
    assert [Down(a)][1..] == [];
    ExecuteNothing({a}, answers);
    assert Execute({a}, [Down(a)], answers) == Execution({a}, true, true);
  }

  /** Up, saved and desired are the same interfaces, and no `up` met one that was up. */
  lemma TrackedApply(s: State, env: Env, name: string -> Iface)
    requires Tracked(s) && Gentle(s, env) && Apply(s, env, name).ok
    ensures var r := Apply(s, env, name);
      r.clean && Names(r.state.saved) == r.state.up == Names(Desired(env.inbounds, name).value) && Tracked(r.state)
  {
    SuccessfulApply(s, env, name);
  }

  /** Whatever happens, only interfaces that some `up` names are added. */
  lemma {:induction false} OnlyUpsAdd(up: set<Iface>, commands: seq<Command>, answers: Answers, i: Iface)
    requires i in Execute(up, commands, answers).up
    ensures i in up || Up(i) in commands
    decreases |commands|
  {
    if commands != [] && !Raises(commands[0], answers(commands[0])) {
      assert commands == [commands[0]] + commands[1..];
      OnlyUpsAdd(UpAfter(up, commands[0], answers(commands[0])), commands[1..], answers, i);
    }
  }

  lemma PlannedUps(loaded: seq<Iface>, desired: seq<Iface>, i: Iface)
    ensures Up(i) in Plan(loaded, desired) ==> i in desired
  {
    RemovalsUps(loaded, desired, i);
    RestartsUps(loaded, desired, i);
  }

  lemma {:induction false} RemovalsUps(loaded: seq<Iface>, desired: seq<Iface>, i: Iface)
    ensures Up(i) !in Removals(loaded, desired)
  {
    if loaded != [] { RemovalsUps(loaded[..|loaded| - 1], desired, i); }
  }

  lemma {:induction false} RestartsUps(loaded: seq<Iface>, desired: seq<Iface>, i: Iface)
    ensures Up(i) in Restarts(loaded, desired) ==> i in desired
  {
    if desired != [] {
      RestartsUps(loaded, desired[..|desired| - 1], i);
      assert desired == desired[..|desired| - 1] + [desired[|desired| - 1]];
    }
  }

  /** A failed apply leaves the state file as it was, unless saving lost it, and up only what
      was up or is wanted. */
  lemma FailedApply(s: State, env: Env, name: string -> Iface)
    requires !Apply(s, env, name).ok
    ensures var r := Apply(s, env, name);
      var wanted := Desired(env.inbounds, name);
      (r.state.saved == if wanted.Some? && NoneRaises(s, env, wanted.value) && env.saving.Lost? then [] else s.saved)
      && forall i :: i in r.state.up ==> i in s.up || (wanted.Some? && i in wanted.value)
  {
    var desired := Desired(env.inbounds, name);
    if desired.Some? {
      var plan := Plan(Loaded(s, env.readable), desired.value);
      OkRanAll(s.up, plan, env.answers);
      var e := Execute(s.up, plan, env.answers);
      forall i | i in e.up ensures i in s.up || i in desired.value {
        OnlyUpsAdd(s.up, plan, env.answers, i);
        PlannedUps(Loaded(s, env.readable), desired.value, i);
      }
      hide Execute, Plan;
    }
  }

  lemma {:induction false} DoneIsOk(up: set<Iface>, commands: seq<Command>, answers: Answers)
    requires forall c :: answers(c).Done?
    ensures Execute(up, commands, answers).ok
    decreases |commands|
  {
    if commands != [] { DoneIsOk(UpAfter(up, commands[0], answers(commands[0])), commands[1..], answers); }
  }

  /** Every apply of a config, failed or not, keeps the state file complete if and only if the
      file already names every interface the config wants. */
  lemma AppliesKeepTrackedExactly(s: State, inbounds: seq<Inbound>, name: string -> Iface)
    requires Tracked(s) && Desired(inbounds, name).Some?
    ensures Names(Desired(inbounds, name).value) <= Names(s.saved) <==>
      forall env: Env :: env.inbounds == inbounds && Gentle(s, env) ==> Tracked(Apply(s, env, name).state)
  {
    var wanted := Desired(inbounds, name).value;
    if Names(wanted) <= Names(s.saved) {
      forall env: Env | env.inbounds == inbounds && Gentle(s, env) ensures Tracked(Apply(s, env, name).state) {
        KnownApplyKeepsTracked(s, env, name);
      }
    } else {
      UnsavedIsStray(s, inbounds, name);
    }
  }

  lemma KnownApplyKeepsTracked(s: State, env: Env, name: string -> Iface)
    requires Tracked(s) && Gentle(s, env)
    requires var wanted := Desired(env.inbounds, name); wanted.Some? ==> Names(wanted.value) <= Names(s.saved)
    ensures Tracked(Apply(s, env, name).state)
    ensures !Apply(s, env, name).ok ==> Apply(s, env, name).state.saved == s.saved
  {
    hide Apply, Desired;
    if Apply(s, env, name).ok {
      TrackedApply(s, env, name);
    } else {
      FailedApply(s, env, name);
      var wanted := Desired(env.inbounds, name);
      forall i | i in Apply(s, env, name).state.up ensures i in Names(s.saved) {
        if wanted.Some? && i in wanted.value { assert i in Names(wanted.value); }
      }
    }
  }

  /** The apply that brings everything up and cannot write the state file. */
  function Unsaved(inbounds: seq<Inbound>): Env { Env(inbounds, true, (c: Command) => Done, KeptOld) }

  lemma UnsavedIsStray(s: State, inbounds: seq<Inbound>, name: string -> Iface)
    requires Desired(inbounds, name).Some? && !(Names(Desired(inbounds, name).value) <= Names(s.saved))
    ensures Gentle(s, Unsaved(inbounds)) && !Tracked(Apply(s, Unsaved(inbounds), name).state)
  {
    var env, wanted := Unsaved(inbounds), Desired(inbounds, name).value;
    DoneIsOk(s.up, Plan(s.saved, wanted), env.answers);
    hide Execute, Plan, Desired;
    WholePlan(s.up, s.saved, wanted, env.answers);
    var i :| i in Names(wanted) && i !in Names(s.saved);
    assert i in Apply(s, env, name).state.up;
  }

  // ---------------------------------------------------------------- series of applies

  function Run(s: State, envs: seq<Env>, name: string -> Iface): State
    decreases |envs|
  {
    if envs == [] then s else Run(Apply(s, envs[0], name).state, envs[1..], name)
  }

  /** Apply `k` of the series succeeds. */
  predicate SucceedsAt(s: State, envs: seq<Env>, name: string -> Iface, k: nat)
    requires k < |envs|
  {
    Apply(Run(s, envs[..k], name), envs[k], name).ok
  }

  /** Gentle applies, of which those that fail want only what the state file names. */
  predicate Steady(s: State, envs: seq<Env>, name: string -> Iface)
    decreases |envs|
  {
    envs == [] ||
    (var r, wanted := Apply(s, envs[0], name), Desired(envs[0].inbounds, name);
     Gentle(s, envs[0]) && (r.ok || wanted.None? || Names(wanted.value) <= Names(s.saved))
     && Steady(r.state, envs[1..], name))
  }

  lemma SteadyApply(s: State, env: Env, name: string -> Iface)
    requires Tracked(s) && Steady(s, [env], name)
    ensures var r := Apply(s, env, name);
      Tracked(r.state) && (!r.ok ==> r.state.saved == s.saved)
      && (r.ok ==> Names(r.state.saved) == r.state.up == Names(Desired(env.inbounds, name).value))
  {
    hide Apply, Desired;
    if Apply(s, env, name).ok { TrackedApply(s, env, name); } else { KnownApplyKeepsTracked(s, env, name); }
  }

  lemma {:induction false} SteadyKeepsTracked(s: State, envs: seq<Env>, name: string -> Iface)
    requires Tracked(s) && Steady(s, envs, name)
    ensures Tracked(Run(s, envs, name))
    decreases |envs|
  {
    hide Apply, Desired, Tracked;
    if envs != [] {
      SteadyApply(s, envs[0], name);
      SteadyKeepsTracked(Apply(s, envs[0], name).state, envs[1..], name);
    }
  }

  lemma {:induction false} RunInit(s: State, envs: seq<Env>, name: string -> Iface)
    requires envs != []
    ensures var n := |envs| - 1;
      Run(s, envs, name) == Apply(Run(s, envs[..n], name), envs[n], name).state
      && (Steady(s, envs, name) ==> Steady(s, envs[..n], name) && Steady(Run(s, envs[..n], name), [envs[n]], name))
    decreases |envs|
  {
    hide Apply, Desired, Gentle;
    var n := |envs| - 1;
    if n > 0 {
      assert envs[1..][..n - 1] == envs[..n][1..];
      RunInit(Apply(s, envs[0], name).state, envs[1..], name);
    } else {
      assert envs == [envs[0]] && envs[1..] == [] && envs[..0] == [];
    }
  }

  /** Over a steady series the state file follows the last successful apply, what is up is
      among what it names, and is exactly that right after a success. */
  lemma {:induction false} RunFollowsLastSuccess(s: State, envs: seq<Env>, name: string -> Iface, k: nat)
    requires Tracked(s) && Steady(s, envs, name) && k < |envs| && SucceedsAt(s, envs, name, k)
    requires forall j :: k < j < |envs| ==> !SucceedsAt(s, envs, name, j)
    ensures var wanted := Desired(envs[k].inbounds, name);
      wanted.Some? && Names(Run(s, envs, name).saved) == Names(wanted.value) && Tracked(Run(s, envs, name))
      && (k == |envs| - 1 ==> Run(s, envs, name).up == Names(wanted.value))
    decreases |envs|
  {
    hide *;
    var n := |envs| - 1;
    var init := envs[..n];
    RunInit(s, envs, name);
    SteadyKeepsTracked(s, init, name);
    SteadyApply(Run(s, init, name), envs[n], name);
    SuccessAtPrefix(s, envs, name, n);
    SuccessAtPrefix(s, envs, name, k);
    if k < n {
      forall j | k <= j < n ensures SucceedsAt(s, init, name, j) == SucceedsAt(s, envs, name, j) {
        SuccessAtPrefix(s, envs, name, j);
        SuccessAtPrefix(s, init, name, j);
        assert init[..j] == envs[..j] && init[j] == envs[j];
      }
      RunFollowsLastSuccess(s, init, name, k);
    }
  }

  lemma SuccessAtPrefix(s: State, envs: seq<Env>, name: string -> Iface, k: nat)
    requires k < |envs|
    ensures SucceedsAt(s, envs, name, k) == Apply(Run(s, envs[..k], name), envs[k], name).ok
    ensures SucceedsAt(s, envs, name, k) ==> Desired(envs[k].inbounds, name).Some?
  {
    hide Run, Desired, Execute;
  }

  // ---------------------------------------------------------------- a failed apply

  /** An `up` of an interface that is up does not succeed. */
  predicate RefusesUp(i: Iface, env: Env) { !env.answers(Up(i)).Done? }

  predicate Stray(s: State, i: Iface) { i in s.up && i !in s.saved }

  lemma {:induction false} NeverDowned(up: set<Iface>, commands: seq<Command>, i: Iface, answers: Answers)
    requires i in up && Down(i) !in commands
    ensures i in Execute(up, commands, answers).up
    ensures Up(i) in commands && !answers(Up(i)).Done? ==> !Execute(up, commands, answers).ok
    decreases |commands|
  {
    if commands != [] && !Raises(commands[0], answers(commands[0])) {
      NeverDowned(UpAfter(up, commands[0], answers(commands[0])), commands[1..], i, answers);
    }
  }

  lemma {:induction false} PlannedFor(loaded: seq<Iface>, desired: seq<Iface>, i: Iface)
    requires i !in loaded
    ensures Down(i) !in Removals(loaded, desired) && Up(i) !in Removals(loaded, desired)
    ensures Down(i) !in Restarts(loaded, desired) && (Up(i) in Restarts(loaded, desired) <==> i in desired)
    decreases |loaded| + |desired|
  {
    if loaded != [] { PlannedFor(loaded[..|loaded| - 1], desired, i); }
    if desired != [] {
      PlannedFor(loaded, desired[..|desired| - 1], i);
      assert desired == desired[..|desired| - 1] + [desired[|desired| - 1]];
    }
  }

  /** An interface that is up but not in the state file stays so through any apply, and
      no apply of a config that wants it succeeds. */
  lemma StrayStays(s: State, env: Env, name: string -> Iface, i: Iface)
    requires Stray(s, i) && RefusesUp(i, env)
    ensures Stray(Apply(s, env, name).state, i)
    ensures Desired(env.inbounds, name).Some? && i in Desired(env.inbounds, name).value ==> !Apply(s, env, name).ok
  {
    var desired := Desired(env.inbounds, name);
    if desired.Some? {
      var loaded := Loaded(s, env.readable);
      PlannedFor(loaded, desired.value, i);
      NeverDowned(s.up, Plan(loaded, desired.value), i, env.answers);
    }
  }

  lemma {:induction false} StrayForever(s: State, envs: seq<Env>, name: string -> Iface, i: Iface)
    requires Stray(s, i) && forall k :: 0 <= k < |envs| ==> RefusesUp(i, envs[k])
    ensures Stray(Run(s, envs, name), i)
    decreases |envs|
  {
    if envs != [] {
      StrayStays(s, envs[0], name, i);
      StrayForever(Apply(s, envs[0], name).state, envs[1..], name, i);
    }
  }

  lemma DesiredMore(inbounds: seq<Inbound>, last: Inbound, name: string -> Iface)
    requires last.Inbound? && Desired(inbounds, name).Some?
    ensures var d := Desired(inbounds, name).value;
      Desired(inbounds + [last], name) == Some(if name(last.tag) in d then d else d + [name(last.tag)])
  {
    assert (inbounds + [last])[..|inbounds|] == inbounds;
  }

  /** A first apply whose second interface fails to come up leaves the first one stray. */
  lemma FailedApplyLeavesStray(a: string, b: string, answers: Answers)
    requires a != b && answers(Up(a)) == Done && answers(Up(b)) == Refused(false)
    ensures var r := Apply(State({}, []), Env([Inbound(a), Inbound(b)], true, answers, Saved), (t: string) => t);
      !r.ok && Stray(r.state, a)
  {
    var name := (t: string) => t;
    var both := [Inbound(a), Inbound(b)];
    assert both[..1] == [Inbound(a)] && [Inbound(a)][..0] == [];
    DesiredMore([], Inbound(a), name);
    assert [] + [Inbound(a)] == [Inbound(a)] && [] + [a] == [a];
    DesiredMore([Inbound(a)], Inbound(b), name);
    assert [Inbound(a)] + [Inbound(b)] == both && [a] + [b] == [a, b];
    hide Desired, Execute, Plan;
    TwoUps(a, b, answers);
  }

  lemma TwoUps(a: Iface, b: Iface, answers: Answers)
    requires a != b && answers(Up(a)) == Done && answers(Up(b)) == Refused(false)
    ensures Execute({}, Plan([], [a, b]), answers) == Execution({a}, false, true)
  {
    assert [a, b][..1] == [a] && [a][..0] == [];
    assert Restarts([], [a]) == [] + [] + [Up(a)];
    assert Plan([], [a, b]) == [Up(a), Up(b)];
    assert [Up(a), Up(b)][1..] == [Up(b)];
    assert Execute({a}, [Up(b)], answers) == Execution({a}, false, true);
    assert {} + {a} == {a};
  }
}
