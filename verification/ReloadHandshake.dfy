/** The reload handshake between an engine provider and its supervisor over the
    shared volume: apps/api/src/core/mtproxy.provider.ts (`apply`),
    apps/api/src/core/core-adapters.ts (`requestSharedVolumeReload`) and
    deploy/mtproxy/supervisor.py (`main`, `start_children`).

    One requester runs at a time (it holds the apply lock); the supervisor runs
    beside it and may crash and restart at any point. A step is one file or
    process operation. Every write may fail before or after it took effect. */
module ReloadHandshake {
  import opened Options
  import ReloadFiles

  type Content = string

  datatype Request = Request(id: string, hash: string)

  predicate IsRequest(request: Request) { ReloadFiles.IsRequest(request.id, request.hash) }

  /** An answer on disk. `failure` is the text of the exception an error answer reports. */
  datatype Ack = Ack(request: Request, failure: Option<string>)

  function Message(detail: string): string { "restart-failed:" + detail }

  /** What the requester makes of the file, which is text. */
  function DecideOn(ack: Ack, request: Request): ReloadFiles.Decision {
    var text :=
      if ack.failure.None? then ReloadFiles.AckText(ack.request.id, ack.request.hash, "ok", "restarted")
      else ReloadFiles.AckText(ack.request.id, ack.request.hash, "error", Message(ack.failure.value));
    ReloadFiles.Decide(text, request.id, request.hash)
  }

  datatype Status = SUCCEEDED | ROLLED_BACK | FAILED

  /** Where `apply` stands. `back` is false before the rollback and true during it. */
  datatype Requester =
    | Idle
    | Replacing(prev: Content, next: Content)
    | Requesting(prev: Content, next: Content, back: bool)
    | Waiting(prev: Content, next: Content, back: bool, request: Request)
    | Verifying(prev: Content, next: Content, back: bool, request: Request)
    | Restoring(prev: Content, next: Content)
    | Done(status: Status, prev: Content, next: Content, answered: Option<Request>)

  /** Why the supervisor is starting children. `failure` is that of the first attempt. */
  datatype Reason = Boot | Serve(request: Request, failure: Option<string>)

  datatype Supervisor =
    | Down
    | UnlinkingRequest
    | UnlinkingAck
    | Polling(last: Option<string>)
    | Stopping(reason: Reason, last: Option<string>)
    | Reading(reason: Reason, last: Option<string>)
    | Launching(reason: Reason, last: Option<string>, config: Content)
    | Acking(request: Request, failure: Option<string>, last: Option<string>)

  /** `running` is the config the supervised children were started from, `strays` those of
      children that a start which broke off left without supervision. `used` and `crashed`
      are history: the ids of all requests so far, and whether the supervisor went down
      since the latest one. */
  datatype State = State(
    config: Content,
    request: Option<Request>,
    ack: Option<Ack>,
    running: Option<Content>,
    strays: set<Content>,
    requester: Requester,
    supervisor: Supervisor,
    used: set<string>,
    crashed: bool)

  /** How a write ends: done, failed with the old file in place, or failed after
      the rename (a directory sync that throws). */
  datatype Fault = Ok | Before | After

  /** How the starting of children ends. `Broke` comes before they are supervised; children
      started by then are left alone, unless it was one of them that died: then all of
      them are stopped. `Late` comes after, when statistics are written. */
  datatype Start = Launched | Broke(left: bool, error: string) | Late(error: string)

  datatype Step =
    // requester
    | Begin(next: Content)
    | BeginFails(next: Content)
    | Replace(fault: Fault)
    | WriteRequest(request: Request, fault: Fault)
    | ReadAck
    | TimeOut
    | Health(healthy: bool)
    | Restore(fault: Fault)
    | RequesterCrash
    // supervisor
    | BootUp
    | UnlinkRequest(done: bool)
    | UnlinkAck(done: bool)
    | Poll
    | StopChildren(error: Option<string>)
    | ReadConfig(error: Option<string>)
    | Launch(start: Start)
    | WriteAck
    | SupervisorCrash

  // ---- requester ----------------------------------------------------------

  function Target(r: Requester): Content
    requires r.Requesting? || r.Waiting? || r.Verifying?
  {
    if r.back then r.prev else r.next
  }

  /** The catch blocks of `apply`, after the config was replaced. */
  function Failure(r: Requester): Requester
    requires r.Requesting? || r.Waiting? || r.Verifying?
  {
    if r.back then Done(FAILED, r.prev, r.next, None) else Restoring(r.prev, r.next)
  }

  /** After a poll that found an answer to the request. */
  function Answered(r: Requester, decision: ReloadFiles.Decision): Requester
    requires r.Waiting?
  {
    if decision.Accepted? then Verifying(r.prev, r.next, r.back, r.request) else Failure(r)
  }

  function RequesterStep(s: State, step: Step): Option<State> {
    var r := s.requester;
    match step
    case Begin(next) =>
      if r.Idle? || r.Done? then Some(s.(requester := Replacing(s.config, next))) else None
    case BeginFails(next) =>
      // the read of the current config, or the candidate or last-known-good write, throws
      if r.Idle? || r.Done? then Some(s.(requester := Done(FAILED, s.config, next, None))) else None
    case Replace(fault) =>
      if !r.Replacing? then None
      else if fault.Ok? then Some(s.(config := r.next, requester := Requesting(r.prev, r.next, false)))
      else Some(s.(config := if fault.After? then r.next else s.config,
                   requester := Done(FAILED, r.prev, r.next, None)))
    case WriteRequest(request, fault) =>
      if !r.Requesting? || !IsRequest(request) || request.id in s.used then None
      else if fault.Before? then Some(s.(requester := Failure(r)))
      else
        Some(s.(request := Some(request), used := s.used + {request.id}, crashed := false,
                requester := if fault.Ok? then Waiting(r.prev, r.next, r.back, request) else Failure(r)))
    case ReadAck =>
      if !r.Waiting? || s.ack.None? || DecideOn(s.ack.value, r.request).Wait? then None
      else Some(s.(requester := Answered(r, DecideOn(s.ack.value, r.request))))
    case TimeOut =>
      if r.Waiting? then Some(s.(requester := Failure(r))) else None
    case Health(healthy) =>
      if !r.Verifying? then None
      else if healthy then
        Some(s.(requester := Done(if r.back then ROLLED_BACK else SUCCEEDED, r.prev, r.next, Some(r.request))))
      else Some(s.(requester := Failure(r)))
    case Restore(fault) =>
      if !r.Restoring? then None
      else if fault.Ok? then Some(s.(config := r.prev, requester := Requesting(r.prev, r.next, true)))
      else Some(s.(config := if fault.After? then r.prev else s.config,
                   requester := Done(FAILED, r.prev, r.next, None)))
    case RequesterCrash => Some(s.(requester := Idle))
    case _ => None
  }

  // ---- supervisor ---------------------------------------------------------

  /** The supervisor is its container's main process: nothing outlives it. */
  function WentDown(s: State): State { s.(running := None, strays := {}, supervisor := Down, crashed := true) }

  /** What follows when `start_children` raises: at boot the process exits; while
      serving, one more start is tried and the answer is the first error either way. */
  function StartRaised(s: State, reason: Reason, error: string, last: Option<string>): State {
    match reason
    case Boot => WentDown(s)
    case Serve(request, None) => s.(supervisor := Stopping(Serve(request, Some(error)), last))
    case Serve(request, Some(first)) => s.(supervisor := Acking(request, Some(first), last))
  }

  function StartDone(s: State, reason: Reason, last: Option<string>): State {
    match reason
    case Boot => s.(supervisor := Polling(None))
    case Serve(request, failure) => s.(supervisor := Acking(request, failure, last))
  }

  function SupervisorStep(s: State, step: Step): Option<State> {
    var p := s.supervisor;
    match step
    case BootUp =>
      if p.Down? then Some(s.(supervisor := UnlinkingRequest)) else None
    case UnlinkRequest(done) =>
      // both unlinks share one try: when the first raises, the second is skipped
      if !p.UnlinkingRequest? then None
      else if done then Some(s.(request := None, supervisor := UnlinkingAck))
      else Some(s.(supervisor := Stopping(Boot, None)))
    case UnlinkAck(done) =>
      if !p.UnlinkingAck? then None
      else Some(s.(ack := if done then None else s.ack, supervisor := Stopping(Boot, None)))
    case Poll =>
      if !p.Polling? || s.request.None? || p.last == Some(s.request.value.id) then None
      else Some(s.(supervisor := Stopping(Serve(s.request.value, None), p.last)))
    case StopChildren(error) =>
      if !p.Stopping? then None
      else if error.None? then Some(s.(running := None, supervisor := Reading(p.reason, p.last)))
      else Some(StartRaised(s, p.reason, error.value, p.last))
    case ReadConfig(error) =>
      if !p.Reading? then None
      else if error.None? then Some(s.(supervisor := Launching(p.reason, p.last, s.config)))
      else Some(StartRaised(s, p.reason, error.value, p.last))
    case Launch(start) =>
      if !p.Launching? then None
      else
        (match start
         case Launched => Some(StartDone(s.(running := Some(p.config)), p.reason, p.last))
         case Broke(left, error) =>
           Some(StartRaised(s.(strays := if left then s.strays + {p.config} else s.strays), p.reason, error, p.last))
         case Late(error) => Some(StartRaised(s.(running := Some(p.config)), p.reason, error, p.last)))
    case WriteAck =>
      if !p.Acking? then None
      else Some(s.(ack := Some(Ack(p.request, p.failure)), supervisor := Polling(Some(p.request.id))))
    case SupervisorCrash => Some(WentDown(s))
    case _ => None
  }

  predicate OfSupervisor(step: Step) {
    step.BootUp? || step.UnlinkRequest? || step.UnlinkAck? || step.Poll? || step.StopChildren?
    || step.ReadConfig? || step.Launch? || step.WriteAck? || step.SupervisorCrash?
  }

  function Next(s: State, step: Step): Option<State> {
    if OfSupervisor(step) then SupervisorStep(s, step) else RequesterStep(s, step)
  }

  // ---- runs ---------------------------------------------------------------

  /** The exception texts a run may meet. */
  type Texts = string -> bool

  function ErrorOf(step: Step): Option<string> {
    match step
    case StopChildren(error) => error
    case ReadConfig(error) => error
    case Launch(Broke(_, error)) => Some(error)
    case Launch(Late(error)) => Some(error)
    case _ => None
  }

  predicate Uses(steps: seq<Step>, allowed: Texts) {
    forall i :: 0 <= i < |steps| && ErrorOf(steps[i]).Some? ==> allowed(ErrorOf(steps[i]).value)
  }

  /** The supervisor is down; files left by earlier lives may hold old requests and acks. */
  predicate Initial(s: State, allowed: Texts) {
    && s.requester.Idle? && s.supervisor.Down? && s.running.None? && s.strays == {}
    && (s.request.Some? ==> IsRequest(s.request.value) && s.request.value.id in s.used)
    && (s.ack.Some? ==> IsRequest(s.ack.value.request) && s.ack.value.request.id in s.used)
    && (s.ack.Some? && s.ack.value.failure.Some? ==> allowed(s.ack.value.failure.value))
  }

  /** The state after `steps`, or nothing when one of them cannot be taken. */
  function Run(s: State, steps: seq<Step>): Option<State>
    decreases |steps|
  {
    if steps == [] then Some(s)
    else
      var t := Next(s, steps[0]);
      if t.None? then None else Run(t.value, steps[1..])
  }

  // ---- answers are read as they are meant ------------------------------------

  predicate Innocent(failure: Option<string>) {
    failure.Some? ==> ReloadFiles.Innocent(Message(failure.value))
  }

  /** An answer that a later request can meet. */
  predicate Proper(ack: Ack) { IsRequest(ack.request) && Innocent(ack.failure) }

  lemma AcceptedIsOk(ack: Ack, request: Request)
    requires Proper(ack) && IsRequest(request) && DecideOn(ack, request).Accepted?
    ensures ack.failure.None? && ack.request == request
  {
    hide ReloadFiles.Innocent, ReloadFiles.Decide, ReloadFiles.AckText, ReloadFiles.IsRequest;
    if ack.failure.None? {
      assert '\n' !in "restarted";
      ReloadFiles.OkAcceptsItsRequest(ack.request.id, ack.request.hash, "restarted", request.id, request.hash);
    } else {
      ReloadFiles.InnocentIsRefused(
        ack.request.id, ack.request.hash, Message(ack.failure.value), request.id, request.hash);
    }
  }

  lemma OkIsAccepted(request: Request)
    requires IsRequest(request)
    ensures DecideOn(Ack(request, None), request).Accepted?
  {
    hide ReloadFiles.Decide, ReloadFiles.AckText, ReloadFiles.IsRequest;
    assert '\n' !in "restarted";
    ReloadFiles.OkAcceptsItsRequest(request.id, request.hash, "restarted", request.id, request.hash);
  }

  // ---- invariant ----------------------------------------------------------

  predicate ReasonKnown(reason: Reason, used: set<string>) {
    reason.Serve? ==> IsRequest(reason.request) && reason.request.id in used && Innocent(reason.failure)
  }

  predicate SupervisorKnown(p: Supervisor, used: set<string>) {
    match p
    case Polling(last) => last.Some? ==> last.value in used
    case Stopping(reason, _) => ReasonKnown(reason, used)
    case Reading(reason, _) => ReasonKnown(reason, used)
    case Launching(reason, _, _) => ReasonKnown(reason, used)
    case Acking(request, failure, _) => ReasonKnown(Serve(request, failure), used)
    case _ => true
  }

  /** Every request in sight was made, and every error answer is innocent. */
  predicate Known(s: State) {
    && (s.request.Some? ==> IsRequest(s.request.value) && s.request.value.id in s.used)
    && (s.ack.Some? ==> Proper(s.ack.value) && s.ack.value.request.id in s.used)
    && SupervisorKnown(s.supervisor, s.used)
  }

  /** No supervised process runs, and none is about to be launched from, anything but the
      config on disk. */
  predicate Fresh(s: State) {
    && (s.running.Some? ==> s.running.value == s.config)
    && (s.supervisor.Launching? ==> s.supervisor.config == s.config)
  }

  /** The supervisor starts children for request `id`, and has already stopped the old ones. */
  predicate StartsFor(p: Supervisor, id: string) {
    || (p.Reading? && p.reason.Serve? && p.reason.request.id == id)
    || (p.Launching? && p.reason.Serve? && p.reason.request.id == id)
    || (p.Acking? && p.failure.None? && p.request.id == id)
  }

  /** The request `id` was served: the children run the config on disk, or the supervisor
      went down since and can only come back with it. */
  predicate Settled(s: State, id: string) {
    Fresh(s) && (!s.crashed ==> s.supervisor == Polling(Some(id)) && s.running == Some(s.config))
  }

  /** `id` is the latest request, and whatever was started for it was read after it was written. */
  predicate Asked(s: State, id: string) {
    && id in s.used
    && (s.request.Some? ==> s.request.value.id == id)
    && (s.ack.Some? && s.ack.value.failure.None? && s.ack.value.request.id == id ==> Settled(s, id))
    && (StartsFor(s.supervisor, id) ==> Fresh(s))
    && (StartsFor(s.supervisor, id) && s.supervisor.Acking? ==> s.running == Some(s.config))
  }

  /** A request that is being waited for, or was answered. */
  datatype Pending = Pending(request: Request, expected: Content, answered: bool)

  function Latest(r: Requester): Option<Pending> {
    match r
    case Waiting(_, _, _, request) => Some(Pending(request, Target(r), false))
    case Verifying(_, _, _, request) => Some(Pending(request, Target(r), true))
    case Done(SUCCEEDED, _, next, Some(request)) => Some(Pending(request, next, true))
    case Done(ROLLED_BACK, prev, _, Some(request)) => Some(Pending(request, prev, true))
    case _ => None
  }

  predicate Inv(s: State) {
    && Known(s)
    && (s.supervisor.Down? ==> s.running.None?)
    && (s.requester.Requesting? ==> s.config == Target(s.requester))
    && (s.requester.Done? && !s.requester.status.FAILED? ==> s.requester.answered.Some?)
    && var latest := Latest(s.requester);
       latest.Some? ==>
         && IsRequest(latest.value.request)
         && s.config == latest.value.expected
         && Asked(s, latest.value.request.id)
         && (latest.value.answered ==> Settled(s, latest.value.request.id))
  }

  lemma BeginKeepsInv(s: State, step: Step)
    requires step.Begin? || step.BeginFails? || step.RequesterCrash?
    requires Inv(s) && RequesterStep(s, step).Some?
    ensures Inv(RequesterStep(s, step).value)
  {
    hide DecideOn, Innocent, IsRequest;
  }

  lemma ReplaceKeepsInv(s: State, fault: Fault)
    requires Inv(s) && RequesterStep(s, Replace(fault)).Some?
    ensures Inv(RequesterStep(s, Replace(fault)).value)
  {
    hide DecideOn, Innocent, IsRequest;
  }

  lemma RestoreKeepsInv(s: State, fault: Fault)
    requires Inv(s) && RequesterStep(s, Restore(fault)).Some?
    ensures Inv(RequesterStep(s, Restore(fault)).value)
  {
    hide DecideOn, Innocent, IsRequest;
  }

  lemma WriteRequestKeepsInv(s: State, request: Request, fault: Fault)
    requires Inv(s) && RequesterStep(s, WriteRequest(request, fault)).Some?
    ensures Inv(RequesterStep(s, WriteRequest(request, fault)).value)
  {
    hide DecideOn, Innocent, IsRequest;
  }

  lemma ReadAckKeepsInv(s: State)
    requires Inv(s) && RequesterStep(s, ReadAck).Some?
    ensures Inv(RequesterStep(s, ReadAck).value)
  {
    hide DecideOn, Innocent, IsRequest;
    if DecideOn(s.ack.value, s.requester.request).Accepted? { AcceptedIsOk(s.ack.value, s.requester.request); }
  }

  lemma GiveUpKeepsInv(s: State, step: Step)
    requires step.TimeOut? || step.Health?
    requires Inv(s) && RequesterStep(s, step).Some?
    ensures Inv(RequesterStep(s, step).value)
  {
    hide DecideOn, Innocent, IsRequest;
  }

  lemma BootStepKeepsInv(s: State, step: Step)
    requires step.BootUp? || step.SupervisorCrash?
    requires Inv(s) && SupervisorStep(s, step).Some?
    ensures Inv(SupervisorStep(s, step).value)
  {
    hide Innocent, IsRequest;
  }

  lemma UnlinkStepKeepsInv(s: State, step: Step)
    requires step.UnlinkRequest? || step.UnlinkAck?
    requires Inv(s) && SupervisorStep(s, step).Some?
    ensures Inv(SupervisorStep(s, step).value)
  {
    hide Innocent, IsRequest;
  }

  lemma PollKeepsInv(s: State)
    requires Inv(s) && SupervisorStep(s, Poll).Some?
    ensures Inv(SupervisorStep(s, Poll).value)
  {
    assert Innocent(None);
    hide Innocent, IsRequest;
  }

  /** Whether the supervisor is at work on starting children for `reason`. */
  predicate Starts(p: Supervisor, reason: Reason) {
    (p.Stopping? || p.Reading? || p.Launching?) && p.reason == reason
  }

  lemma BootRaisedKeepsInv(s: State)
    requires Inv(s)
    ensures Inv(WentDown(s))
  {
    hide Innocent, IsRequest;
  }

  lemma FirstRaisedKeepsInv(s: State, request: Request, error: string, last: Option<string>)
    requires Inv(s) && ReasonKnown(Serve(request, None), s.used) && Innocent(Some(error))
    requires Starts(s.supervisor, Serve(request, None))
    ensures Inv(s.(supervisor := Stopping(Serve(request, Some(error)), last)))
  {
    hide Innocent, IsRequest;
  }

  lemma SecondRaisedKeepsInv(s: State, request: Request, first: string, last: Option<string>)
    requires Inv(s) && ReasonKnown(Serve(request, Some(first)), s.used)
    requires Starts(s.supervisor, Serve(request, Some(first)))
    ensures Inv(s.(supervisor := Acking(request, Some(first), last)))
  {
    hide Innocent, IsRequest;
  }

  lemma StartRaisedKeepsInv(s: State, reason: Reason, error: string, last: Option<string>)
    requires Inv(s) && ReasonKnown(reason, s.used) && Innocent(Some(error)) && Starts(s.supervisor, reason)
    ensures Inv(StartRaised(s, reason, error, last))
  {
    hide Inv, Innocent, IsRequest, ReasonKnown;
    match reason {
      case Boot => BootRaisedKeepsInv(s);
      case Serve(request, None) => FirstRaisedKeepsInv(s, request, error, last);
      case Serve(request, Some(first)) => SecondRaisedKeepsInv(s, request, first, last);
    }
  }

  lemma StopChildrenKeepsInv(s: State)
    requires Inv(s) && SupervisorStep(s, StopChildren(None)).Some?
    ensures Inv(SupervisorStep(s, StopChildren(None)).value)
  {
    hide Innocent, IsRequest;
  }

  lemma ReadConfigKeepsInv(s: State)
    requires Inv(s) && SupervisorStep(s, ReadConfig(None)).Some?
    ensures Inv(SupervisorStep(s, ReadConfig(None)).value)
  {
    hide Innocent, IsRequest;
  }

  lemma LaunchedKeepsInv(s: State)
    requires Inv(s) && SupervisorStep(s, Launch(Launched)).Some?
    ensures Inv(SupervisorStep(s, Launch(Launched)).value)
  {
    hide Innocent, IsRequest;
  }

  /** The children run, but nobody has been told yet. */
  lemma RunningKeepsInv(s: State)
    requires Inv(s) && s.supervisor.Launching?
    ensures Inv(s.(running := Some(s.supervisor.config)))
  {
    hide Innocent, IsRequest;
  }

  lemma StraysKeepInv(s: State, strays: set<Content>)
    requires Inv(s)
    ensures Inv(s.(strays := strays))
  {
    hide Innocent, IsRequest;
  }

  lemma StartStepKeepsInv(s: State, step: Step)
    requires step.StopChildren? || step.ReadConfig? || step.Launch?
    requires Inv(s) && SupervisorStep(s, step).Some? && Innocent(ErrorOf(step))
    ensures Inv(SupervisorStep(s, step).value)
  {
    var p := s.supervisor;
    assert ReasonKnown(p.reason, s.used);
    hide Inv, Innocent, IsRequest, StartRaised, ReasonKnown;
    match step {
      case StopChildren(None) => StopChildrenKeepsInv(s);
      case ReadConfig(None) => ReadConfigKeepsInv(s);
      case Launch(Launched) => LaunchedKeepsInv(s);
      case StopChildren(Some(error)) => StartRaisedKeepsInv(s, p.reason, error, p.last);
      case ReadConfig(Some(error)) => StartRaisedKeepsInv(s, p.reason, error, p.last);
      case Launch(Broke(left, error)) =>
        var strays := if left then s.strays + {p.config} else s.strays;
        StraysKeepInv(s, strays);
        StartRaisedKeepsInv(s.(strays := strays), p.reason, error, p.last);
      case Launch(Late(error)) =>
        RunningKeepsInv(s);
        StartRaisedKeepsInv(s.(running := Some(p.config)), p.reason, error, p.last);
    }
  }

  lemma WriteAckKeepsInv(s: State)
    requires Inv(s) && SupervisorStep(s, WriteAck).Some?
    ensures Inv(SupervisorStep(s, WriteAck).value)
  {
    hide Innocent, IsRequest;
  }

  lemma NextKeepsInv(s: State, step: Step)
    requires Inv(s) && Next(s, step).Some? && Innocent(ErrorOf(step))
    ensures Inv(Next(s, step).value)
  {
    hide Inv, RequesterStep, SupervisorStep, Innocent;
    match step {
      case WriteRequest(request, fault) => WriteRequestKeepsInv(s, request, fault);
      case Poll => PollKeepsInv(s);
      case WriteAck => WriteAckKeepsInv(s);
      case ReadAck => ReadAckKeepsInv(s);
      case TimeOut => GiveUpKeepsInv(s, step);
      case Health(_) => GiveUpKeepsInv(s, step);
      case StopChildren(_) => StartStepKeepsInv(s, step);
      case ReadConfig(_) => StartStepKeepsInv(s, step);
      case Launch(_) => StartStepKeepsInv(s, step);
      case BootUp => BootStepKeepsInv(s, step);
      case UnlinkRequest(_) => UnlinkStepKeepsInv(s, step);
      case UnlinkAck(_) => UnlinkStepKeepsInv(s, step);
      case SupervisorCrash => BootStepKeepsInv(s, step);
      case Replace(fault) => ReplaceKeepsInv(s, fault);
      case Restore(fault) => RestoreKeepsInv(s, fault);
      case _ => BeginKeepsInv(s, step);
    }
  }

  ghost predicate AllInnocent(allowed: Texts) { forall d :: allowed(d) ==> Innocent(Some(d)) }

  lemma {:induction false} RunKeepsInv(s: State, steps: seq<Step>, allowed: Texts)
    requires Inv(s) && Run(s, steps).Some? && Uses(steps, allowed) && AllInnocent(allowed)
    ensures Inv(Run(s, steps).value)
    decreases |steps|
  {
    hide Inv, Next;
    if steps != [] {
      assert Innocent(ErrorOf(steps[0]));
      assert Uses(steps[1..], allowed);
      NextKeepsInv(s, steps[0]);
      RunKeepsInv(Next(s, steps[0]).value, steps[1..], allowed);
    }
  }

  // ---- the outcome and the supervised children ------------------------------------

  /** The config an outcome says is running. */
  function Told(r: Requester): Option<Content> {
    match r
    case Done(SUCCEEDED, _, next, _) => Some(next)
    case Done(ROLLED_BACK, prev, _, _) => Some(prev)
    case _ => None
  }

  /** Supervised children run `config` or nothing, and nothing else can be started from the
      files; they do run unless the supervisor went down since. */
  predicate RunsOnly(s: State, config: Content) {
    && s.config == config
    && (s.running.Some? ==> s.running.value == config)
    && (s.supervisor.Launching? ==> s.supervisor.config == config)
    && (!s.crashed ==> s.running == Some(config))
  }

  predicate OutcomeTrue(s: State) { Told(s.requester).Some? ==> RunsOnly(s, Told(s.requester).value) }

  /** Whatever the interleaving: if the exceptions' texts are innocent, SUCCEEDED means the
      new config is what is supervised and ROLLED_BACK the previous one, however long
      afterwards one looks, until the next apply. */
  lemma OutcomeIsTrue(s: State, steps: seq<Step>, allowed: Texts)
    requires Initial(s, allowed) && Run(s, steps).Some? && Uses(steps, allowed) && AllInnocent(allowed)
    ensures OutcomeTrue(Run(s, steps).value)
  {
    assert Inv(s) by { hide Innocent, IsRequest; }
    RunKeepsInv(s, steps, allowed);
    hide Innocent, IsRequest, Run;
  }

  // ---- runs step by step ------------------------------------------------------------

  lemma First(s: State, step: Step, t: State, rest: seq<Step>)
    requires Next(s, step) == Some(t)
    ensures Run(s, [step] + rest) == Run(t, rest)
  {
    assert ([step] + rest)[1..] == rest;
  }

  lemma NoSteps(s: State)
    ensures Run(s, []) == Some(s)
  {
  }

  /** The supervisor starts the children of the request it polls. */
  function Serves(start: Start, rest: seq<Step>): seq<Step> {
    [Poll] + ([StopChildren(None)] + ([ReadConfig(None)] + ([Launch(start)] + rest)))
  }

  function Launching1(s: State): State
    requires s.supervisor.Polling? && s.request.Some?
  {
    s.(running := None, supervisor := Launching(Serve(s.request.value, None), s.supervisor.last, s.config))
  }

  lemma Served(s: State, start: Start, rest: seq<Step>)
    requires s.supervisor.Polling? && s.request.Some? && s.supervisor.last != Some(s.request.value.id)
    ensures Run(s, Serves(start, rest)) == Run(Launching1(s), [Launch(start)] + rest)
  {
    hide Run, DecideOn, IsRequest;
    var reason, last := Serve(s.request.value, None), s.supervisor.last;
    var s1 := s.(supervisor := Stopping(reason, last));
    var s2 := s.(running := None, supervisor := Reading(reason, last));
    First(s, Poll, s1, [StopChildren(None)] + ([ReadConfig(None)] + ([Launch(start)] + rest)));
    First(s1, StopChildren(None), s2, [ReadConfig(None)] + ([Launch(start)] + rest));
    First(s2, ReadConfig(None), Launching1(s), [Launch(start)] + rest);
  }

  /** The state after a request was served and answered. */
  function Serviced(s: State, running: Option<Content>, strays: set<Content>, failure: Option<string>): State
    requires s.request.Some?
  {
    s.(running := running, strays := strays, ack := Some(Ack(s.request.value, failure)),
       supervisor := Polling(Some(s.request.value.id)))
  }

  lemma ServedWell(s: State, rest: seq<Step>)
    requires s.supervisor.Polling? && s.request.Some? && s.supervisor.last != Some(s.request.value.id)
    ensures Run(s, Serves(Launched, [WriteAck] + rest)) == Run(Serviced(s, Some(s.config), s.strays, None), rest)
  {
    hide Run, DecideOn, IsRequest;
    Served(s, Launched, [WriteAck] + rest);
    var s4 := s.(running := Some(s.config), supervisor := Acking(s.request.value, None, s.supervisor.last));
    First(Launching1(s), Launch(Launched), s4, [WriteAck] + rest);
    First(s4, WriteAck, Serviced(s, Some(s.config), s.strays, None), rest);
  }

  /** Both starts break off, the first one with children left or not. */
  function Fails(left: bool, detail: string, rest: seq<Step>): seq<Step> {
    Serves(Broke(left, detail), Retries(detail, [WriteAck] + rest))
  }

  function Retries(detail: string, rest: seq<Step>): seq<Step> {
    [StopChildren(None)] + ([ReadConfig(None)] + ([Launch(Broke(false, detail))] + rest))
  }

  function StraysAfter(s: State, left: bool): set<Content> { if left then s.strays + {s.config} else s.strays }

  lemma ServedBadly(s: State, left: bool, detail: string, rest: seq<Step>)
    requires s.supervisor.Polling? && s.request.Some? && s.supervisor.last != Some(s.request.value.id)
    ensures Run(s, Fails(left, detail, rest)) == Run(Serviced(s, None, StraysAfter(s, left), Some(detail)), rest)
  {
    hide Run, DecideOn, IsRequest, Serves, Retries;
    Served(s, Broke(left, detail), Retries(detail, [WriteAck] + rest));
    var reason, last := Serve(s.request.value, Some(detail)), s.supervisor.last;
    var s4 := s.(running := None, strays := StraysAfter(s, left), supervisor := Stopping(reason, last));
    First(Launching1(s), Launch(Broke(left, detail)), s4, Retries(detail, [WriteAck] + rest));
    Retried(s4, detail, [WriteAck] + rest);
    var s7 := s4.(supervisor := Acking(s.request.value, Some(detail), last));
    First(s7, WriteAck, Serviced(s, None, StraysAfter(s, left), Some(detail)), rest);
  }

  lemma Retried(s: State, detail: string, rest: seq<Step>)
    requires s.supervisor.Stopping? && s.supervisor.reason.Serve? && s.supervisor.reason.failure.Some?
      && s.running.None?
    ensures Run(s, Retries(detail, rest)) ==
      Run(s.(supervisor := Acking(s.supervisor.reason.request, s.supervisor.reason.failure, s.supervisor.last)), rest)
  {
    hide Run, DecideOn, IsRequest;
    var reason, last := s.supervisor.reason, s.supervisor.last;
    var s5 := s.(supervisor := Reading(reason, last));
    var s6 := s.(supervisor := Launching(reason, last, s.config));
    var s7 := s.(supervisor := Acking(reason.request, reason.failure, last));
    First(s, StopChildren(None), s5, [ReadConfig(None)] + ([Launch(Broke(false, detail))] + rest));
    First(s5, ReadConfig(None), s6, [Launch(Broke(false, detail))] + rest);
    First(s6, Launch(Broke(false, detail)), s7, rest);
  }

  /** The requester replaces the config and asks for a reload. */
  function Applies(next: Content, request: Request, rest: seq<Step>): seq<Step> {
    [Begin(next)] + ([Replace(Ok)] + ([WriteRequest(request, Ok)] + rest))
  }

  function Asking(s: State, next: Content, request: Request): State {
    s.(config := next, request := Some(request), used := s.used + {request.id}, crashed := false,
       requester := Waiting(s.config, next, false, request))
  }

  /** An idle requester beside an idle supervisor. */
  predicate Ready(s: State, request: Request) {
    (s.requester.Idle? || s.requester.Done?) && s.supervisor.Polling? && s.supervisor.last != Some(request.id)
    && IsRequest(request) && request.id !in s.used
  }

  lemma Applied(s: State, next: Content, request: Request, rest: seq<Step>)
    requires Ready(s, request)
    ensures Run(s, Applies(next, request, rest)) == Run(Asking(s, next, request), rest)
  {
    hide Run, DecideOn, IsRequest;
    var s1 := s.(requester := Replacing(s.config, next));
    var s2 := s.(config := next, requester := Requesting(s.config, next, false));
    First(s, Begin(next), s1, [Replace(Ok)] + ([WriteRequest(request, Ok)] + rest));
    First(s1, Replace(Ok), s2, [WriteRequest(request, Ok)] + rest);
    First(s2, WriteRequest(request, Ok), Asking(s, next, request), rest);
  }

  const Finishes: seq<Step> := [ReadAck] + ([Health(true)] + [])

  /** The answer is accepted and the supervisor alive. */
  lemma Finished(s: State)
    requires s.requester.Waiting? && s.ack.Some? && DecideOn(s.ack.value, s.requester.request).Accepted?
    ensures var r := s.requester;
      Run(s, Finishes) ==
      Some(s.(requester := Done(if r.back then ROLLED_BACK else SUCCEEDED, r.prev, r.next, Some(r.request))))
  {
    hide Run, DecideOn, IsRequest;
    var r := s.requester;
    var s1 := s.(requester := Verifying(r.prev, r.next, r.back, r.request));
    var s2 := s.(requester := Done(if r.back then ROLLED_BACK else SUCCEEDED, r.prev, r.next, Some(r.request)));
    First(s, ReadAck, s1, [Health(true)] + []);
    First(s1, Health(true), s2, []);
    NoSteps(s2);
  }

  // ---- both outcomes are reachable, and so is a stray beside them -------------------------

  function SucceedingSteps(next: Content, request: Request): seq<Step> {
    Applies(next, request, Serves(Launched, [WriteAck] + Finishes))
  }

  /** Beside an idle supervisor an apply can succeed; strays stay. */
  lemma SuccessIsReachable(s: State, next: Content, request: Request)
    requires Ready(s, request)
    ensures var t := Run(s, SucceedingSteps(next, request));
      t.Some? && t.value.requester == Done(SUCCEEDED, s.config, next, Some(request))
      && t.value.running == Some(next) && t.value.strays == s.strays
      && t.value.supervisor == Polling(Some(request.id)) && t.value.used == s.used + {request.id}
  {
    hide Run, DecideOn, IsRequest, Serves, Applies;
    var s3 := Asking(s, next, request);
    Applied(s, next, request, Serves(Launched, [WriteAck] + Finishes));
    ServedWell(s3, Finishes);
    OkIsAccepted(request);
    Finished(Serviced(s3, Some(next), s.strays, None));
  }

  function RollingBackSteps(next: Content, one: Request, two: Request, left: bool, detail: string): seq<Step> {
    Applies(next, one, Fails(left, detail, [ReadAck] + RestoringSteps(two)))
  }

  function RestoringSteps(request: Request): seq<Step> {
    [Restore(Ok)] + ([WriteRequest(request, Ok)] + Serves(Launched, [WriteAck] + Finishes))
  }

  lemma OneLineIsRejected(request: Request, detail: string)
    requires IsRequest(request) && ReloadFiles.OneLine(Message(detail))
    ensures DecideOn(Ack(request, Some(detail)), request).Rejected?
  {
    hide ReloadFiles.Decide, ReloadFiles.AckText, ReloadFiles.IsRequest;
    ReloadFiles.RequestsAreLines(request.id, request.hash);
    ReloadFiles.OneLineMessages(request.id, request.hash, "error", Message(detail));
  }

  /** A start that breaks off is rolled back; children it left go on serving the config
      that was rolled back. */
  lemma RollbackIsReachable(s: State, next: Content, one: Request, two: Request, left: bool, detail: string)
    requires Ready(s, one) && Ready(s, two) && one.id != two.id && ReloadFiles.OneLine(Message(detail))
    ensures var t := Run(s, RollingBackSteps(next, one, two, left, detail));
      t.Some? && t.value.requester == Done(ROLLED_BACK, s.config, next, Some(two))
      && t.value.running == Some(s.config)
      && t.value.strays == (if left then s.strays + {next} else s.strays)
      && t.value.supervisor == Polling(Some(two.id)) && t.value.used == s.used + {one.id} + {two.id}
  {
    hide Run, DecideOn, IsRequest, Serves, Fails, Applies, RestoringSteps, ReloadFiles.OneLine;
    var s1 := Asking(s, next, one);
    Applied(s, next, one, Fails(left, detail, [ReadAck] + RestoringSteps(two)));
    ServedBadly(s1, left, detail, [ReadAck] + RestoringSteps(two));
    var s2 := Serviced(s1, None, StraysAfter(s1, left), Some(detail));
    OneLineIsRejected(one, detail);
    var s3 := s2.(requester := Restoring(s.config, next));
    First(s2, ReadAck, s3, RestoringSteps(two));
    Restored(s3, two);
  }

  lemma Restored(s: State, request: Request)
    requires s.requester.Restoring? && s.supervisor.Polling? && s.supervisor.last != Some(request.id)
    requires IsRequest(request) && request.id !in s.used
    ensures var r := s.requester;
      Run(s, RestoringSteps(request)) ==
      Some(s.(config := r.prev, request := Some(request), ack := Some(Ack(request, None)), running := Some(r.prev),
              requester := Done(ROLLED_BACK, r.prev, r.next, Some(request)), supervisor := Polling(Some(request.id)),
              used := s.used + {request.id}, crashed := false))
  {
    hide Run, DecideOn, IsRequest, Serves;
    var r := s.requester;
    var s1 := s.(config := r.prev, requester := Requesting(r.prev, r.next, true));
    var s2 := s1.(request := Some(request), used := s.used + {request.id}, crashed := false,
                  requester := Waiting(r.prev, r.next, true, request));
    First(s, Restore(Ok), s1, [WriteRequest(request, Ok)] + Serves(Launched, [WriteAck] + Finishes));
    First(s1, WriteRequest(request, Ok), s2, Serves(Launched, [WriteAck] + Finishes));
    ServedWell(s2, Finishes);
    OkIsAccepted(request);
    Finished(Serviced(s2, Some(r.prev), s.strays, None));
  }

  // ---- why the texts must be innocent ------------------------------------------------------

  function StartsAtBoot(rest: seq<Step>): seq<Step> {
    [StopChildren(None)] + ([ReadConfig(None)] + ([Launch(Launched)] + rest))
  }

  const Boots: seq<Step> := [BootUp] + ([UnlinkRequest(true)] + ([UnlinkAck(true)] + StartsAtBoot([])))

  const NEW_STATE := State("", None, None, None, {}, Idle, Down, {}, false)
  const BOOTED := State("", None, None, Some(""), {}, Idle, Polling(None), {}, false)

  lemma Unlinked(s: State, rest: seq<Step>)
    requires s.supervisor.Down?
    ensures Run(s, [BootUp] + ([UnlinkRequest(true)] + ([UnlinkAck(true)] + rest))) ==
      Run(s.(request := None, ack := None, supervisor := Stopping(Boot, None)), rest)
  {
    hide Run, DecideOn, IsRequest;
    var s1 := s.(supervisor := UnlinkingRequest);
    var s2 := s.(request := None, supervisor := UnlinkingAck);
    var s3 := s.(request := None, ack := None, supervisor := Stopping(Boot, None));
    First(s, BootUp, s1, [UnlinkRequest(true)] + ([UnlinkAck(true)] + rest));
    First(s1, UnlinkRequest(true), s2, [UnlinkAck(true)] + rest);
    First(s2, UnlinkAck(true), s3, rest);
  }

  lemma StartedAtBoot(s: State, rest: seq<Step>)
    requires s.supervisor == Stopping(Boot, None)
    ensures Run(s, StartsAtBoot(rest)) == Run(s.(running := Some(s.config), supervisor := Polling(None)), rest)
  {
    hide Run, DecideOn, IsRequest;
    var s1 := s.(running := None, supervisor := Reading(Boot, None));
    var s2 := s.(running := None, supervisor := Launching(Boot, None, s.config));
    var s3 := s.(running := Some(s.config), supervisor := Polling(None));
    First(s, StopChildren(None), s1, [ReadConfig(None)] + ([Launch(Launched)] + rest));
    First(s1, ReadConfig(None), s2, [Launch(Launched)] + rest);
    First(s2, Launch(Launched), s3, rest);
  }

  lemma Booted()
    ensures Run(NEW_STATE, Boots) == Some(BOOTED)
  {
    hide Run, StartsAtBoot;
    Unlinked(NEW_STATE, StartsAtBoot([]));
    StartedAtBoot(NEW_STATE.(supervisor := Stopping(Boot, None)), []);
    NoSteps(BOOTED);
  }

  lemma {:induction false} RunAppend(s: State, a: seq<Step>, b: seq<Step>)
    requires Run(s, a).Some?
    ensures Run(s, a + b) == Run(Run(s, a).value, b)
    decreases |a|
  {
    hide Next;
    if a == [] {
      assert a + b == b;
    } else {
      assert (a + b)[1..] == a[1..] + b;
      RunAppend(Next(s, a[0]).value, a[1..], b);
    }
  }

  function MisreadSteps(request: Request, detail: string): seq<Step> {
    Applies("new", request, Fails(false, detail, Finishes))
  }

  /** The state at its end. */
  function MisreadState(request: Request, detail: string): State {
    Serviced(Asking(BOOTED, "new", request), None, {}, Some(detail)).(
      requester := Done(SUCCEEDED, "", "new", Some(request)))
  }

  lemma Misread(request: Request, detail: string)
    requires IsRequest(request) && DecideOn(Ack(request, Some(detail)), request).Accepted?
    ensures Run(BOOTED, MisreadSteps(request, detail)) == Some(MisreadState(request, detail))
  {
    hide Run, DecideOn, IsRequest, Fails, Applies;
    var s3 := Asking(BOOTED, "new", request);
    Applied(BOOTED, "new", request, Fails(false, detail, Finishes));
    ServedBadly(s3, false, detail, Finishes);
    Finished(Serviced(s3, None, {}, Some(detail)));
  }

  /** With a text that is not innocent an apply is reported as SUCCEEDED though both starts
      failed and nothing runs. */
  lemma GuiltyTextMisleads(detail: string) returns (request: Request)
    requires !Innocent(Some(detail))
    ensures Run(BOOTED, MisreadSteps(request, detail)) == Some(MisreadState(request, detail))
    ensures MisreadState(request, detail).running.None? && !OutcomeTrue(MisreadState(request, detail))
  {
    hide Run, Fails, Applies, ReloadFiles.TakenFor, ReloadFiles.Decide, ReloadFiles.AckText;
    var taken := ReloadFiles.TakenFor(Message(detail));
    ReloadFiles.GuiltyIsAccepted(Message(detail));
    request := Request(taken.0, taken.1);
    Misread(request, detail);
  }

  lemma MisreadUses(request: Request, detail: string, allowed: Texts)
    requires allowed(detail)
    ensures Uses(Boots + MisreadSteps(request, detail), allowed)
  {
    UsesMisread(request, detail, allowed);
    UsesBoots(allowed);
    hide MisreadSteps, ErrorOf;
  }

  lemma UsesBoots(allowed: Texts)
    ensures Uses(Boots, allowed)
  {
  }

  lemma UsesMisread(request: Request, detail: string, allowed: Texts)
    requires allowed(detail)
    ensures Uses(MisreadSteps(request, detail), allowed)
  {
  }

  /** Every outcome of every run is true if and only if every exception text the supervisor
      may report is innocent. */
  lemma OutcomesAreTrueExactly(allowed: Texts)
    ensures AllInnocent(allowed) <==>
      forall s, steps :: Initial(s, allowed) && Run(s, steps).Some? && Uses(steps, allowed) ==>
        OutcomeTrue(Run(s, steps).value)
  {
    hide Run, OutcomeTrue, Innocent, Uses;
    if AllInnocent(allowed) {
      forall s, steps | Initial(s, allowed) && Run(s, steps).Some? && Uses(steps, allowed)
        ensures OutcomeTrue(Run(s, steps).value)
      {
        OutcomeIsTrue(s, steps, allowed);
      }
    } else {
      var detail :| allowed(detail) && !Innocent(Some(detail));
      var request := GuiltyTextMisleads(detail);
      Booted();
      RunAppend(NEW_STATE, Boots, MisreadSteps(request, detail));
      MisreadUses(request, detail, allowed);
      assert Initial(NEW_STATE, allowed);
      var steps := Boots + MisreadSteps(request, detail);
      assert Run(NEW_STATE, steps).Some? && Uses(steps, allowed) && !OutcomeTrue(Run(NEW_STATE, steps).value);
    }
  }

  // ---- strays --------------------------------------------------------------------------------

  /** Step `i` of the run broke off a start of `config` and left children behind. */
  predicate BreaksAt(s: State, steps: seq<Step>, i: nat, config: Content)
    requires i < |steps|
  {
    var before := Run(s, steps[..i]);
    steps[i].Launch? && steps[i].start.Broke? && steps[i].start.left
    && before.Some? && before.value.supervisor.Launching? && before.value.supervisor.config == config
  }

  predicate UpAt(s: State, steps: seq<Step>, j: nat)
    requires j <= |steps|
  {
    Run(s, steps[..j]).Some? && !Run(s, steps[..j]).value.supervisor.Down?
  }

  /** A start of `config` broke off part-way since the supervisor was last down. */
  predicate LeftBehind(s: State, steps: seq<Step>, config: Content) {
    exists i :: 0 <= i < |steps| && BreaksAt(s, steps, i, config) && forall j :: i < j <= |steps| ==> UpAt(s, steps, j)
  }

  lemma {:induction false} RunInit(s: State, steps: seq<Step>)
    requires steps != [] && Run(s, steps).Some?
    ensures var init := Run(s, steps[..|steps| - 1]);
      init.Some? && Next(init.value, steps[|steps| - 1]) == Run(s, steps)
    decreases |steps|
  {
    hide Next;
    if |steps| > 1 {
      assert steps[1..][..|steps| - 2] == steps[..|steps| - 1][1..];
      RunInit(Next(s, steps[0]).value, steps[1..]);
    } else {
      assert steps[1..] == [] && steps[..0] == [];
    }
  }

  lemma StepStrays(s: State, step: Step, config: Content)
    requires Next(s, step).Some? && (s.supervisor.Down? ==> s.strays == {})
    ensures var t := Next(s, step).value;
      if t.supervisor.Down? then t.strays == {}
      else (config in t.strays <==>
            config in s.strays
            || (step.Launch? && step.start.Broke? && step.start.left && s.supervisor.Launching?
              && s.supervisor.config == config))
  {
    hide DecideOn, IsRequest;
  }

  lemma LeftBehindMore(s: State, steps: seq<Step>, config: Content)
    requires steps != [] && UpAt(s, steps, |steps|)
    ensures LeftBehind(s, steps, config) <==>
      LeftBehind(s, steps[..|steps| - 1], config) || BreaksAt(s, steps, |steps| - 1, config)
  {
    hide Run;
    var n := |steps| - 1;
    var init := steps[..n];
    forall i | 0 <= i < n ensures BreaksAt(s, init, i, config) == BreaksAt(s, steps, i, config) {
      assert init[..i] == steps[..i];
    }
    forall j | 0 <= j <= n ensures UpAt(s, init, j) == UpAt(s, steps, j) { assert init[..j] == steps[..j]; }
    if LeftBehind(s, init, config) {
      var i :| 0 <= i < n && BreaksAt(s, init, i, config) && forall j :: i < j <= n ==> UpAt(s, init, j);
      assert BreaksAt(s, steps, i, config);
      assert forall j :: i < j <= n ==> UpAt(s, steps, j);
    }
    if LeftBehind(s, steps, config) && !BreaksAt(s, steps, n, config) {
      var i :| 0 <= i < |steps| && BreaksAt(s, steps, i, config) && forall j :: i < j <= |steps| ==> UpAt(s, steps, j);
      assert BreaksAt(s, init, i, config);
      assert forall j :: i < j <= n ==> UpAt(s, init, j);
    }
  }

  /** The unsupervised children are exactly those of the starts that broke off part-way since
      the supervisor was last down. */
  lemma {:induction false} StraysAreLeftBehind(s: State, steps: seq<Step>, config: Content)
    requires s.strays == {} && s.supervisor.Down? && Run(s, steps).Some?
    ensures var t := Run(s, steps).value;
      (t.supervisor.Down? ==> t.strays == {}) && (config in t.strays <==> LeftBehind(s, steps, config))
    decreases |steps|
  {
    if steps == [] {
      return;
    }
    hide Next, LeftBehind;
    var n := |steps| - 1;
    RunInit(s, steps);
    StraysAreLeftBehind(s, steps[..n], config);
    StepStrays(Run(s, steps[..n]).value, steps[n], config);
    assert steps[..|steps|] == steps;
    if Run(s, steps).value.supervisor.Down? {
      NobodyLeft(s, steps, config);
    } else {
      LeftBehindMore(s, steps, config);
    }
  }

  lemma NobodyLeft(s: State, steps: seq<Step>, config: Content)
    requires Run(s, steps).Some? && Run(s, steps).value.supervisor.Down?
    ensures !LeftBehind(s, steps, config)
  {
    hide Run;
    assert steps[..|steps|] == steps;
    assert !UpAt(s, steps, |steps|);
  }

  /** No process, supervised or not, runs anything but `config`. */
  predicate OnlyRuns(s: State, config: Content) { RunsOnly(s, config) && s.strays <= {config} }

  /** After a reported success or rollback nothing but the told config runs if and only if no
      start of another config broke off part-way since the supervisor was last down. */
  lemma OnlyToldRunsExactly(s: State, steps: seq<Step>, allowed: Texts)
    requires Initial(s, allowed) && Run(s, steps).Some? && Uses(steps, allowed) && AllInnocent(allowed)
    requires Told(Run(s, steps).value.requester).Some?
    ensures var t := Run(s, steps).value;
      var told := Told(t.requester).value;
      OnlyRuns(t, told) <==> forall config :: config != told ==> !LeftBehind(s, steps, config)
  {
    OutcomeIsTrue(s, steps, allowed);
    hide Run, LeftBehind, RunsOnly;
    forall config ensures config in Run(s, steps).value.strays <==> LeftBehind(s, steps, config) {
      StraysAreLeftBehind(s, steps, config);
    }
  }

  function Numbered(last: char): Request { Request(ReloadFiles.SomeId(last), ReloadFiles.SomeHash()) }

  lemma NumberedAreRequests()
    ensures IsRequest(Numbered('1')) && IsRequest(Numbered('2')) && IsRequest(Numbered('3'))
    ensures ReloadFiles.OneLine(Message("broke"))
  {
  }

  const RolledBackSteps: seq<Step> := Boots + RollingBackSteps("a", Numbered('1'), Numbered('2'), true, "broke")
  const SucceededSteps: seq<Step> := RolledBackSteps + SucceedingSteps("b", Numbered('3'))

  /** Two runs that end ROLLED_BACK and SUCCEEDED while a child of config "a" goes on serving. */
  lemma StraysBesideBothOutcomes()
    ensures var t := Run(NEW_STATE, RolledBackSteps);
      t.Some? && t.value.requester.Done? && t.value.requester.status.ROLLED_BACK?
      && Told(t.value.requester) == Some("") && !OnlyRuns(t.value, "")
    ensures var t := Run(NEW_STATE, SucceededSteps);
      t.Some? && t.value.requester.Done? && t.value.requester.status.SUCCEEDED?
      && Told(t.value.requester) == Some("b") && !OnlyRuns(t.value, "b")
  {
    hide Run, IsRequest, DecideOn, RollingBackSteps, SucceedingSteps, Numbered, ReloadFiles.OneLine;
    NumberedAreRequests();
    NumberedIds();
    Booted();
    RollbackIsReachable(BOOTED, "a", Numbered('1'), Numbered('2'), true, "broke");
    RunAppend(NEW_STATE, Boots, RollingBackSteps("a", Numbered('1'), Numbered('2'), true, "broke"));
    var back := Run(NEW_STATE, RolledBackSteps).value;
    SuccessIsReachable(back, "b", Numbered('3'));
    RunAppend(NEW_STATE, RolledBackSteps, SucceedingSteps("b", Numbered('3')));
    assert "a"[0] != "b"[0];
    assert "a" in back.strays;
  }

  lemma NumberedIds()
    ensures Numbered('1').id != Numbered('2').id && Numbered('1').id != Numbered('3').id
    ensures Numbered('2').id != Numbered('3').id
  {
    assert Numbered('1').id[35] == '1' && Numbered('2').id[35] == '2' && Numbered('3').id[35] == '3';
  }
}
