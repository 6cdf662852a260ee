/** The Redis lease lock: apps/api/src/core/distributed-lock.ts (`tryWithLock`, the
    release and renew scripts, the renewal timer).

    Time is in milliseconds. A step is one Redis command, one message arriving at a
    client, one timer event or one event of the guarded operation. */
module DistributedLock {
  import opened Options

  type Token = nat
  type ClientId = nat

  /** The key as Redis holds it; it is gone once `now` reaches `expires`. */
  datatype Lease = Lease(token: Token, expires: nat)

  /** A renewal of `renew()`: none in flight, on its way to Redis, or answered. */
  datatype Renewal = NoRenewal | Sent(at: nat) | Replied(at: nat, owned: bool)

  datatype Outcome = Returned | Threw

  datatype Client =
    | Idle
    | Granted(token: Token, at: nat)
    | Running(token: Token, lost: bool, renewal: Renewal, nextFire: nat)
    | Releasing(token: Token, outcome: Outcome, lost: bool)
    | Done(acquired: bool, outcome: Outcome, lost: bool)

  /** `stray` are renewals still on their way when their operation ended. */
  datatype State = State(
    now: nat,
    lease: Option<Lease>,
    clients: map<ClientId, Client>,
    stray: set<Token>,
    used: set<Token>)

  /** `tryWithLock` refuses anything below a second. */
  predicate ValidTtl(ttl: nat) { ttl >= 1_000 }

  /** The period of the renewal timer. */
  function Period(ttl: nat): (period: nat)
    ensures period >= 1_000 && ttl < 3 * period + 3 && (period > 1_000 ==> 3 * period <= ttl)
  {
    if ttl / 3 > 1_000 then ttl / 3 else 1_000
  }

  /** The lease that still counts. */
  function Holder(s: State): Option<Lease> {
    if s.lease.Some? && s.now < s.lease.value.expires then s.lease else None
  }

  /** RENEW_LOCK_LUA: extends the lease only for the token that holds it. */
  function RenewScript(s: State, token: Token, ttl: nat): (Option<Lease>, bool) {
    if Holder(s).Some? && Holder(s).value.token == token then (Some(Lease(token, s.now + ttl)), true)
    else (Holder(s), false)
  }

  /** RELEASE_LOCK_LUA: deletes the lease only for the token that holds it. */
  function ReleaseScript(s: State, token: Token): Option<Lease> {
    if Holder(s).Some? && Holder(s).value.token == token then None else Holder(s)
  }

  datatype Step =
    | Tick(elapsed: nat)
    | SetNx(c: ClientId, token: Token)
    | Start(c: ClientId)
    | Fire(c: ClientId)
    | Verify(c: ClientId)
    | RenewAtRedis(c: ClientId)
    | RenewReply(c: ClientId)
    | RenewError(c: ClientId)
    | OperationReturns(c: ClientId)
    | OperationThrows(c: ClientId)
    | Release(c: ClientId)
    | ReleaseError(c: ClientId)
    | StrayRenew(token: Token)

  function ClientOf(s: State, c: ClientId): Client {
    if c in s.clients then s.clients[c] else Idle
  }

  function With(s: State, c: ClientId, client: Client): State {
    s.(clients := s.clients[c := client])
  }

  /** `renew()`: nothing once ownership is lost, nothing more while one is in flight. */
  function StartRenewal(client: Client, now: nat): Renewal
    requires client.Running?
  {
    if client.lost || !client.renewal.NoRenewal? then client.renewal else Sent(now)
  }

  /** The end of the operation: `assertOwned` turns a result into an error. */
  function Ended(client: Client, outcome: Outcome): Client
    requires client.Running?
  {
    Releasing(client.token, if client.lost then Threw else outcome, client.lost)
  }

  function Stray(s: State, client: Client): set<Token>
    requires client.Running?
  {
    if client.renewal.Sent? then s.stray + {client.token} else s.stray
  }

  function Next(s: State, step: Step, ttl: nat): Option<State> {
    match step
    case Tick(elapsed) => Some(s.(now := s.now + elapsed))
    case SetNx(c, token) =>
      var client := ClientOf(s, c);
      if !(client.Idle? || client.Done?) || token in s.used then None
      else if Holder(s).Some? then Some(With(s, c, Done(false, Threw, false)).(used := s.used + {token}))
      else Some(With(s, c, Granted(token, s.now)).(lease := Some(Lease(token, s.now + ttl)), used := s.used + {token}))
    case Start(c) =>
      var client := ClientOf(s, c);
      if !client.Granted? then None
      else Some(With(s, c, Running(client.token, false, NoRenewal, s.now + Period(ttl))))
    case Fire(c) =>
      var client := ClientOf(s, c);
      if !client.Running? || s.now < client.nextFire then None
      else Some(With(s, c, client.(renewal := StartRenewal(client, s.now), nextFire := s.now + Period(ttl))))
    case Verify(c) =>
      var client := ClientOf(s, c);
      if !client.Running? then None
      else Some(With(s, c, client.(renewal := StartRenewal(client, s.now))))
    case RenewAtRedis(c) =>
      var client := ClientOf(s, c);
      if !client.Running? || !client.renewal.Sent? then None
      else
        var (lease, owned) := RenewScript(s, client.token, ttl);
        Some(With(s, c, client.(renewal := Replied(client.renewal.at, owned))).(lease := lease))
    case RenewReply(c) =>
      var client := ClientOf(s, c);
      if !client.Running? || !client.renewal.Replied? then None
      else Some(With(s, c, client.(renewal := NoRenewal, lost := client.lost || !client.renewal.owned)))
    case RenewError(c) =>
      // the connection fails, before or after the script ran
      var client := ClientOf(s, c);
      if !client.Running? || client.renewal.NoRenewal? then None
      else Some(With(s, c, client.(renewal := NoRenewal, lost := true)).(stray := Stray(s, client)))
    case OperationReturns(c) =>
      var client := ClientOf(s, c);
      if !client.Running? then None
      else Some(With(s, c, Ended(client, Returned)).(stray := Stray(s, client)))
    case OperationThrows(c) =>
      var client := ClientOf(s, c);
      if !client.Running? then None
      else Some(With(s, c, Ended(client, Threw)).(stray := Stray(s, client)))
    case Release(c) =>
      var client := ClientOf(s, c);
      if !client.Releasing? then None
      else
        // whether it deleted the lease is only logged
        Some(With(s, c, Done(true, client.outcome, client.lost)).(lease := ReleaseScript(s, client.token)))
    case ReleaseError(c) =>
      // only logged; the lease is left to expire
      var client := ClientOf(s, c);
      if !client.Releasing? then None
      else Some(With(s, c, Done(true, client.outcome, client.lost)))
    case StrayRenew(token) =>
      if token !in s.stray then None
      else Some(s.(lease := RenewScript(s, token, ttl).0, stray := s.stray - {token}))
  }

  function Run(s: State, steps: seq<Step>, ttl: nat): Option<State>
    decreases |steps|
  {
    if steps == [] then Some(s)
    else
      var t := Next(s, steps[0], ttl);
      if t.None? then None else Run(t.value, steps[1..], ttl)
  }

  predicate Initial(s: State) {
    s.lease.None? && s.clients == map[] && s.stray == {} && s.used == {}
  }

  // ---- what a client is told ----------------------------------------------------------

  predicate Owns(s: State, token: Token) { Holder(s).Some? && Holder(s).value.token == token }

  ghost predicate OthersSame(s: State, t: State, c: ClientId) {
    forall d :: d != c ==> ClientOf(t, d) == ClientOf(s, d)
  }

  /** A client is let in exactly if no lease counts; the lease is then its own, for the whole
      lease time from now on. */
  lemma LetInExactly(s: State, c: ClientId, token: Token, ttl: nat)
    requires Next(s, SetNx(c, token), ttl).Some?
    ensures var t := Next(s, SetNx(c, token), ttl).value; var client := ClientOf(t, c);
            && (client == Granted(token, s.now) <==> Holder(s) == None)
            && (client == Granted(token, s.now) ==> t.lease == Some(Lease(token, s.now + ttl)))
            && (client != Granted(token, s.now) ==> client.Done? && !client.acquired && t.lease == s.lease)
            && OthersSame(s, t, c) && t.stray == s.stray
  {
  }

  /** A renewal is answered with "owned" exactly if the lease was the client's own when it
      reached Redis; it is then extended by the whole lease time, and otherwise left alone. A
      call that hears it is no longer the owner knows that it has lost the lock. */
  lemma RenewalTellsExactly(s: State, c: ClientId, ttl: nat)
    requires ClientOf(s, c).Running? && ClientOf(s, c).renewal.Sent?
    ensures Next(s, RenewAtRedis(c), ttl).Some?
    ensures var token, t := ClientOf(s, c).token, Next(s, RenewAtRedis(c), ttl).value;
            && Holder(t) == (if Owns(s, token) && ttl > 0 then Some(Lease(token, s.now + ttl))
                             else if Owns(s, token) then None else Holder(s))
            && Next(t, RenewReply(c), ttl).Some?
            && OthersSame(s, t, c)
            && var after := ClientOf(Next(t, RenewReply(c), ttl).value, c);
               after.Running? && (after.lost <==> ClientOf(s, c).lost || !Owns(s, token))
  {
  }

  /** The answer counts whenever it arrives: until then no step but its end or a broken
      connection takes it from the call. */
  lemma AnswersAreKept(s: State, step: Step, c: ClientId, ttl: nat)
    requires ClientOf(s, c).Running? && ClientOf(s, c).renewal.Replied? && Next(s, step, ttl).Some?
    ensures var before, after := ClientOf(s, c), ClientOf(Next(s, step, ttl).value, c);
            if step == RenewReply(c) then after.Running? && (after.lost <==> before.lost || !before.renewal.owned)
            else if step == RenewError(c) then after.Running? && after.lost
            else if step == OperationReturns(c) || step == OperationThrows(c) then
              after.Releasing? && after.lost == before.lost
            else after.Running? && after.renewal == before.renewal && after.lost == before.lost
  {
  }

  /** The timer may fire from its due time on, and asks for a renewal unless one is under way
      or the lock is known to be lost; it is then due again a period later. */
  lemma TimerFiresExactly(s: State, c: ClientId, ttl: nat)
    ensures Next(s, Fire(c), ttl).Some? <==> ClientOf(s, c).Running? && s.now >= ClientOf(s, c).nextFire
    ensures Next(s, Fire(c), ttl).Some? ==>
      var before, after := ClientOf(s, c), ClientOf(Next(s, Fire(c), ttl).value, c);
      after.Running? && after.nextFire == s.now + Period(ttl)
      && (after.renewal == Sent(s.now) || after.renewal == before.renewal)
      && (!before.lost && before.renewal == NoRenewal ==> after.renewal == Sent(s.now))
      && (before.lost || before.renewal != NoRenewal ==> after.renewal == before.renewal)
  {
  }

  /** A renewal on its way when its operation ends still reaches Redis; it extends the lease
      only if it is still the caller's own. */
  lemma RenewalsOnTheWayArrive(s: State, c: ClientId, step: Step, ttl: nat)
    requires ClientOf(s, c).Running? && (step == OperationReturns(c) || step == OperationThrows(c))
    ensures Next(s, step, ttl).Some?
    ensures var client, t := ClientOf(s, c), Next(s, step, ttl).value;
            && (client.renewal.Sent? ==>
                  Next(t, StrayRenew(client.token), ttl).Some?
                  && Holder(Next(t, StrayRenew(client.token), ttl).value) ==
                       (if Owns(s, client.token) && ttl > 0 then Some(Lease(client.token, s.now + ttl))
                        else if Owns(s, client.token) then None else Holder(s)))
            && (!client.renewal.Sent? ==> t.stray == s.stray)
            && ClientOf(t, c).Releasing?
            && (ClientOf(t, c).outcome == Returned <==> step == OperationReturns(c) && !client.lost)
  {
  }

  /** The release deletes the lease exactly if it is still the caller's own. */
  lemma ReleasesExactly(s: State, c: ClientId, ttl: nat)
    requires ClientOf(s, c).Releasing?
    ensures Next(s, Release(c), ttl).Some?
    ensures var client, t := ClientOf(s, c), Next(s, Release(c), ttl).value;
            && Holder(t) == (if Owns(s, client.token) then None else Holder(s))
            && ClientOf(t, c) == Done(true, client.outcome, client.lost) && OthersSame(s, t, c)
  {
  }

  // ---- what holds whatever the timing -----------------------------------------------

  predicate HasToken(client: Client) { client.Granted? || client.Running? || client.Releasing? }

  /** The client is between the OK of its SET and the end of its operation. */
  predicate Inside(client: Client) { client.Granted? || client.Running? }

  predicate TokensInv(s: State) {
    && (s.lease.Some? ==> s.lease.value.token in s.used)
    && s.stray <= s.used
    && (forall c :: c in s.clients && HasToken(s.clients[c]) ==> s.clients[c].token in s.used)
    && (forall c, d :: c in s.clients && d in s.clients && HasToken(s.clients[c]) && HasToken(s.clients[d])
                       && s.clients[c].token == s.clients[d].token
          ==> c == d)
  }

  /** A loss that was seen is never followed by a value. */
  predicate LossInv(s: State) {
    forall c :: c in s.clients && (s.clients[c].Releasing? || s.clients[c].Done?) && s.clients[c].lost ==>
      s.clients[c].outcome.Threw?
  }

  lemma NextKeepsTokens(s: State, step: Step, ttl: nat)
    requires TokensInv(s) && Next(s, step, ttl).Some?
    ensures TokensInv(Next(s, step, ttl).value)
  {
  }

  lemma NextKeepsLoss(s: State, step: Step, ttl: nat)
    requires LossInv(s) && Next(s, step, ttl).Some?
    ensures LossInv(Next(s, step, ttl).value)
  {
  }

  lemma {:induction false} RunKeepsTokensAndLoss(s: State, steps: seq<Step>, ttl: nat)
    requires TokensInv(s) && LossInv(s) && Run(s, steps, ttl).Some?
    ensures TokensInv(Run(s, steps, ttl).value) && LossInv(Run(s, steps, ttl).value)
    decreases |steps|
  {
    if steps != [] {
      hide Next, TokensInv, LossInv;
      NextKeepsTokens(s, steps[0], ttl);
      NextKeepsLoss(s, steps[0], ttl);
      RunKeepsTokensAndLoss(Next(s, steps[0], ttl).value, steps[1..], ttl);
    }
  }

  /** The token on whose behalf a step talks to Redis. */
  function Actor(s: State, step: Step): Option<Token> {
    match step
    case RenewAtRedis(c) => if HasToken(ClientOf(s, c)) then Some(ClientOf(s, c).token) else None
    case Release(c) => if HasToken(ClientOf(s, c)) then Some(ClientOf(s, c).token) else None
    case StrayRenew(token) => Some(token)
    case _ => None
  }

  /** A lease that counts changes only by a command of its own token: nobody, however late,
      extends, deletes or replaces a successor's lease. Otherwise it goes by expiring. */
  lemma OnlyTheHolderTouches(s: State, step: Step, ttl: nat)
    requires Next(s, step, ttl).Some? && Holder(s).Some?
    requires Actor(s, step) != Some(Holder(s).value.token)
    ensures var t := Next(s, step, ttl).value;
            Holder(t) == if step.Tick? && t.now >= Holder(s).value.expires then None else Holder(s)
  {
  }

  /** In every run: a call whose renewal saw the loss never returns a value. */
  lemma SeenLossThrows(s: State, steps: seq<Step>, ttl: nat, c: ClientId)
    requires Initial(s) && Run(s, steps, ttl).Some?
    ensures var client := ClientOf(Run(s, steps, ttl).value, c);
            client.Done? && client.lost ==> client.outcome.Threw?
  {
    RunKeepsTokensAndLoss(s, steps, ttl);
  }

  /** Once lost, a running call stays lost until it has ended. */
  lemma LostStaysLost(s: State, step: Step, ttl: nat, c: ClientId)
    requires ClientOf(s, c).Running? && ClientOf(s, c).lost && Next(s, step, ttl).Some?
    ensures var client := ClientOf(Next(s, step, ttl).value, c);
            (client.Running? || client.Releasing?) && client.lost && client.token == ClientOf(s, c).token
  {
  }

  // ---- mutual exclusion ----------------------------------------------------------------

  /** No lease has run out under a client that is still inside. */
  predicate InTime(s: State) {
    forall c :: c in s.clients && Inside(s.clients[c]) && s.lease.Some? && s.lease.value.token == s.clients[c].token ==>
      s.now < s.lease.value.expires
  }

  predicate RunInTime(s: State, steps: seq<Step>, ttl: nat)
    decreases |steps|
  {
    InTime(s) && (steps != [] && Next(s, steps[0], ttl).Some? ==>
      RunInTime(Next(s, steps[0], ttl).value, steps[1..], ttl))
  }

  /** Whoever is inside holds the key. */
  predicate HoldsInv(s: State) {
    forall c :: c in s.clients && Inside(s.clients[c]) ==> s.lease.Some? && s.lease.value.token == s.clients[c].token
  }

  predicate Exclusive(s: State) {
    forall c, d :: c in s.clients && d in s.clients && Inside(s.clients[c]) && Inside(s.clients[d]) ==> c == d
  }

  lemma NextKeepsHolds(s: State, step: Step, ttl: nat)
    requires TokensInv(s) && HoldsInv(s) && InTime(s) && Next(s, step, ttl).Some?
    ensures HoldsInv(Next(s, step, ttl).value)
  {
  }

  lemma {:induction false} RunKeepsHolds(s: State, steps: seq<Step>, ttl: nat)
    requires TokensInv(s) && HoldsInv(s) && RunInTime(s, steps, ttl) && Run(s, steps, ttl).Some?
    ensures TokensInv(Run(s, steps, ttl).value) && HoldsInv(Run(s, steps, ttl).value)
    decreases |steps|
  {
    if steps != [] {
      hide Next, TokensInv, HoldsInv, InTime;
      NextKeepsTokens(s, steps[0], ttl);
      NextKeepsHolds(s, steps[0], ttl);
      RunKeepsHolds(Next(s, steps[0], ttl).value, steps[1..], ttl);
    }
  }

  /** As long as every renewal reaches Redis before the deadline, no two clients are inside
      the guarded operation at once. */
  lemma MutualExclusion(s: State, steps: seq<Step>, ttl: nat)
    requires Initial(s) && Run(s, steps, ttl).Some? && RunInTime(s, steps, ttl)
    ensures Exclusive(Run(s, steps, ttl).value)
  {
    RunKeepsHolds(s, steps, ttl);
  }

  // ---- when renewals are in time ----------------------------------------------------------

  lemma PeriodFitsThrice(ttl: nat)
    requires ValidTtl(ttl)
    ensures 3 * Period(ttl) <= ttl <==> ttl >= 3_000
    ensures Period(ttl) < ttl <==> ttl > 1_000
  {
  }

  /** A message takes at most `delay` each way and the timer fires at most `jitter` late. */
  predicate Prompt(s: State, delay: nat, jitter: nat) {
    forall c :: c in s.clients ==>
      var client := s.clients[c];
      && (client.Granted? ==> s.now <= client.at + delay)
      && (client.Running? ==>
            && s.now <= client.nextFire + jitter
            && (client.renewal.Sent? ==> s.now <= client.renewal.at + delay)
            && (client.renewal.Replied? ==> s.now <= client.renewal.at + 2 * delay))
  }

  predicate RunPrompt(s: State, steps: seq<Step>, ttl: nat, delay: nat, jitter: nat)
    decreases |steps|
  {
    && Prompt(s, delay, jitter)
    && (steps != [] ==>
          !steps[0].RenewError? &&
          (Next(s, steps[0], ttl).Some? ==> RunPrompt(Next(s, steps[0], ttl).value, steps[1..], ttl, delay, jitter)))
  }

  /** How far the lease of a client inside reaches. */
  predicate Covered(s: State, client: Client, ttl: nat, delay: nat, jitter: nat) {
    Inside(client) ==>
      && s.lease.Some? && s.lease.value.token == client.token
      && var e := s.lease.value.expires;
         if client.Granted? then client.at <= s.now && e >= client.at + ttl
         else
           && !client.lost
           && client.nextFire <= s.now + Period(ttl)
           && match client.renewal
              case NoRenewal => e > client.nextFire + jitter + delay
              case Sent(at) => at <= s.now && e > at + delay && client.nextFire <= at + delay + Period(ttl)
              case Replied(at, owned) =>
                at <= s.now && owned && e >= at + ttl && client.nextFire <= at + 2 * delay + Period(ttl)
  }

  predicate CoveredInv(s: State, ttl: nat, delay: nat, jitter: nat) {
    && (s.lease.Some? ==> s.lease.value.expires <= s.now + ttl)
    && forall c :: c in s.clients ==> Covered(s, s.clients[c], ttl, delay, jitter)
  }

  lemma CoveredIsInTime(s: State, ttl: nat, delay: nat, jitter: nat)
    requires CoveredInv(s, ttl, delay, jitter) && Prompt(s, delay, jitter) && ttl > Period(ttl) + jitter + 3 * delay
    ensures InTime(s)
    ensures forall c :: c in s.clients && Inside(s.clients[c]) ==> Holder(s) == s.lease && s.lease.Some?
  {
  }

  predicate AtRedis(step: Step) { step.SetNx? || step.RenewAtRedis? || step.Release? || step.StrayRenew? }

  lemma RedisKeepsCovered(s: State, step: Step, ttl: nat, delay: nat, jitter: nat)
    requires TokensInv(s) && CoveredInv(s, ttl, delay, jitter) && Prompt(s, delay, jitter)
    requires ttl > Period(ttl) + jitter + 3 * delay
    requires Next(s, step, ttl).Some? && AtRedis(step)
    ensures CoveredInv(Next(s, step, ttl).value, ttl, delay, jitter)
  {
    CoveredIsInTime(s, ttl, delay, jitter);
    hide Period;
  }

  predicate OfTimer(step: Step) { step.Start? || step.Fire? || step.Verify? || step.RenewReply? }

  lemma StartKeepsCovered(s: State, step: Step, ttl: nat, delay: nat, jitter: nat)
    requires CoveredInv(s, ttl, delay, jitter) && Prompt(s, delay, jitter)
    requires ttl > Period(ttl) + jitter + 3 * delay
    requires Next(s, step, ttl).Some? && (step.Start? || step.RenewReply?)
    ensures CoveredInv(Next(s, step, ttl).value, ttl, delay, jitter)
  {
    hide Period;
  }

  lemma SendKeepsCovered(s: State, step: Step, ttl: nat, delay: nat, jitter: nat)
    requires CoveredInv(s, ttl, delay, jitter) && Prompt(s, delay, jitter)
    requires Next(s, step, ttl).Some? && (step.Fire? || step.Verify?)
    ensures CoveredInv(Next(s, step, ttl).value, ttl, delay, jitter)
  {
    hide Period;
  }

  lemma TimerKeepsCovered(s: State, step: Step, ttl: nat, delay: nat, jitter: nat)
    requires CoveredInv(s, ttl, delay, jitter) && Prompt(s, delay, jitter)
    requires ttl > Period(ttl) + jitter + 3 * delay
    requires Next(s, step, ttl).Some? && OfTimer(step)
    ensures CoveredInv(Next(s, step, ttl).value, ttl, delay, jitter)
  {
    hide CoveredInv, Prompt, Next, Period;
    if step.Start? || step.RenewReply? {
      StartKeepsCovered(s, step, ttl, delay, jitter);
    } else {
      SendKeepsCovered(s, step, ttl, delay, jitter);
    }
  }

  lemma OtherKeepsCovered(s: State, step: Step, ttl: nat, delay: nat, jitter: nat)
    requires CoveredInv(s, ttl, delay, jitter)
    requires Next(s, step, ttl).Some? && !AtRedis(step) && !OfTimer(step) && !step.RenewError?
    ensures CoveredInv(Next(s, step, ttl).value, ttl, delay, jitter)
  {
    hide Period;
  }

  lemma {:induction false} PromptRunsAreInTime(s: State, steps: seq<Step>, ttl: nat, delay: nat, jitter: nat)
    requires TokensInv(s) && CoveredInv(s, ttl, delay, jitter) && RunPrompt(s, steps, ttl, delay, jitter)
    requires ttl > Period(ttl) + jitter + 3 * delay
    ensures RunInTime(s, steps, ttl)
    decreases |steps|
  {
    CoveredIsInTime(s, ttl, delay, jitter);
    hide Next, TokensInv, CoveredInv, InTime, Prompt;
    if steps != [] && Next(s, steps[0], ttl).Some? {
      NextKeepsTokens(s, steps[0], ttl);
      if AtRedis(steps[0]) {
        RedisKeepsCovered(s, steps[0], ttl, delay, jitter);
      } else if OfTimer(steps[0]) {
        TimerKeepsCovered(s, steps[0], ttl, delay, jitter);
      } else {
        OtherKeepsCovered(s, steps[0], ttl, delay, jitter);
      }
      PromptRunsAreInTime(Next(s, steps[0], ttl).value, steps[1..], ttl, delay, jitter);
    }
  }

  /** With renewals every third of the lease: messages and the timer may be late as long as
      `jitter + 3 * delay` stays below the two thirds that remain. */
  lemma PromptMutualExclusion(s: State, steps: seq<Step>, ttl: nat, delay: nat, jitter: nat)
    requires ValidTtl(ttl) && ttl >= 3_000 && 3 * (jitter + 3 * delay) < 2 * ttl
    requires Initial(s) && Run(s, steps, ttl).Some? && RunPrompt(s, steps, ttl, delay, jitter)
    ensures Exclusive(Run(s, steps, ttl).value)
  {
    PeriodFitsThrice(ttl);
    PromptRunsAreInTime(s, steps, ttl, delay, jitter);
    MutualExclusion(s, steps, ttl);
  }

  lemma FirstPromptStep(s: State, step: Step, t: State, rest: seq<Step>, ttl: nat)
    requires Next(s, step, ttl) == Some(t) && !step.RenewError? && Prompt(s, 0, 0) && RunPrompt(t, rest, ttl, 0, 0)
    ensures Run(s, [step] + rest, ttl) == Run(t, rest, ttl) && RunPrompt(s, [step] + rest, ttl, 0, 0)
  {
    assert ([step] + rest)[1..] == rest;
  }

  const RUNNING := Running(1, false, NoRenewal, 1_000)
  const EMPTY := State(0, None, map[], {}, {})
  const GRANTED := State(0, Some(Lease(1, 1_000)), map[1 := Granted(1, 0)], {}, {1})
  const STARTED := State(0, Some(Lease(1, 1_000)), map[1 := RUNNING], {}, {1})
  const EXPIRED := State(1_000, Some(Lease(1, 1_000)), map[1 := RUNNING], {}, {1})
  const OVERLAP := State(1_000, Some(Lease(2, 2_000)), map[1 := RUNNING, 2 := Granted(2, 1_000)], {}, {1, 2})

  lemma FirstClientEnters()
    ensures Next(EMPTY, SetNx(1, 1), 1_000) == Some(GRANTED)
    ensures Next(GRANTED, Start(1), 1_000) == Some(STARTED)
  {
    assert EMPTY.clients[1 := Granted(1, 0)] == GRANTED.clients && EMPTY.used + {1} == GRANTED.used;
    assert GRANTED.clients[1 := RUNNING] == STARTED.clients;
  }

  lemma SecondClientEnters()
    ensures Next(STARTED, Tick(1_000), 1_000) == Some(EXPIRED)
    ensures Next(EXPIRED, SetNx(2, 2), 1_000) == Some(OVERLAP)
  {
    assert EXPIRED.clients[2 := Granted(2, 1_000)] == OVERLAP.clients && EXPIRED.used + {2} == OVERLAP.used;
  }

  lemma NothingIsLate()
    ensures Prompt(EMPTY, 0, 0) && Prompt(GRANTED, 0, 0) && Prompt(STARTED, 0, 0) && Prompt(EXPIRED, 0, 0)
      && Prompt(OVERLAP, 0, 0)
    ensures Initial(EMPTY) && !Exclusive(OVERLAP)
  {
    assert 1 in OVERLAP.clients && 2 in OVERLAP.clients && Inside(OVERLAP.clients[1]) && Inside(OVERLAP.clients[2]);
  }

  lemma FourPromptSteps(s0: State, a: Step, s1: State, b: Step, s2: State, c: Step, s3: State, d: Step, s4: State,
      ttl: nat)
    requires Next(s0, a, ttl) == Some(s1) && Next(s1, b, ttl) == Some(s2) && Next(s2, c, ttl) == Some(s3)
      && Next(s3, d, ttl) == Some(s4)
    requires !a.RenewError? && !b.RenewError? && !c.RenewError? && !d.RenewError?
    requires Prompt(s0, 0, 0) && Prompt(s1, 0, 0) && Prompt(s2, 0, 0) && Prompt(s3, 0, 0) && Prompt(s4, 0, 0)
    ensures Run(s0, [a] + ([b] + ([c] + ([d] + []))), ttl) == Some(s4)
    ensures RunPrompt(s0, [a] + ([b] + ([c] + ([d] + []))), ttl, 0, 0)
  {
    assert RunPrompt(s4, [], ttl, 0, 0) && Run(s4, [], ttl) == Some(s4);
    hide Run, RunPrompt, Next, Prompt;
    FirstPromptStep(s3, d, s4, [], ttl);
    FirstPromptStep(s2, c, s3, [d] + [], ttl);
    FirstPromptStep(s1, b, s2, [c] + ([d] + []), ttl);
    FirstPromptStep(s0, a, s1, [b] + ([c] + ([d] + [])), ttl);
  }

  /** With the shortest lease accepted, the timer fires when the lease has just run out. */
  lemma ShortestLeaseOverlaps()
    ensures ValidTtl(1_000)
    ensures exists s, steps :: Initial(s) && Run(s, steps, 1_000).Some? && RunPrompt(s, steps, 1_000, 0, 0) &&
                               !Exclusive(Run(s, steps, 1_000).value)
  {
    hide Run, RunPrompt, Next, Prompt, Exclusive, Initial;
    FirstClientEnters();
    SecondClientEnters();
    NothingIsLate();
    FourPromptSteps(EMPTY, SetNx(1, 1), GRANTED, Start(1), STARTED, Tick(1_000), EXPIRED, SetNx(2, 2), OVERLAP, 1_000);
  }

  /** When nothing is ever late, an accepted lease time keeps clients apart in every run
      exactly when it is above one second. */
  lemma InstantMutualExclusion(ttl: nat)
    requires ValidTtl(ttl)
    ensures ttl > 1_000 <==>
            (forall s, steps :: Initial(s) && Run(s, steps, ttl).Some? && RunPrompt(s, steps, ttl, 0, 0) ==>
               Exclusive(Run(s, steps, ttl).value))
  {
    hide Run, RunPrompt, Exclusive;
    if ttl > 1_000 {
      PeriodFitsThrice(ttl);
      forall s, steps | Initial(s) && Run(s, steps, ttl).Some? && RunPrompt(s, steps, ttl, 0, 0)
        ensures Exclusive(Run(s, steps, ttl).value)
      {
        PromptRunsAreInTime(s, steps, ttl, 0, 0);
        MutualExclusion(s, steps, ttl);
      }
    } else {
      ShortestLeaseOverlaps();
    }
  }
}
