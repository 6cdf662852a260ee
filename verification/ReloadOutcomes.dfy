/** What `apply` of apps/api/src/core/mtproxy.provider.ts answers and leaves on disk, told by
    what its operations did, whatever its supervisor does meanwhile. */
module ReloadOutcomes {
  import opened Options
  import opened ReloadHandshake

  /** What happened since the latest apply began: how the two writes of the config ended, and
      whether the last thing the requester did was to find the supervisor healthy. */
  datatype Facts = Facts(replaced: Option<Fault>, restored: Option<Fault>, healthy: bool)

  const NOTHING := Facts(None, None, false)

  function Noted(facts: Facts, step: Step): Facts {
    match step
    case Begin(_) => NOTHING
    case BeginFails(_) => NOTHING
    case RequesterCrash => NOTHING
    case Replace(fault) => Facts(Some(fault), facts.restored, false)
    case Restore(fault) => Facts(facts.replaced, Some(fault), false)
    case Health(healthy) => facts.(healthy := healthy)
    case _ => if OfSupervisor(step) then facts else facts.(healthy := false)
  }

  function FactsOf(facts: Facts, steps: seq<Step>): Facts
    decreases |steps|
  {
    if steps == [] then facts else FactsOf(Noted(facts, steps[0]), steps[1..])
  }

  /** The new config is what the two writes left on disk. */
  predicate NextIsLeft(facts: Facts) {
    facts.replaced.Some? && !facts.replaced.value.Before?
    && (facts.restored.None? || facts.restored.value.Before?)
  }

  /** Where the requester stands, by what happened. */
  predicate Fits(r: Requester, facts: Facts) {
    match r
    case Idle => true
    case Replacing(_, _) => facts == NOTHING
    case Requesting(_, _, back) => facts == Facts(Some(Ok), if back then Some(Ok) else None, false)
    case Waiting(_, _, back, _) => facts == Facts(Some(Ok), if back then Some(Ok) else None, false)
    case Verifying(_, _, back, _) => facts == Facts(Some(Ok), if back then Some(Ok) else None, false)
    case Restoring(_, _) => facts == Facts(Some(Ok), None, false)
    case Done(status, _, _, _) =>
      && (facts.healthy ==> facts.replaced == Some(Ok) && (facts.restored == None || facts.restored == Some(Ok)))
      && (status.SUCCEEDED? <==> facts.healthy && facts.restored.None?)
      && (status.ROLLED_BACK? <==> facts.healthy && facts.restored.Some?)
      && (facts.replaced == Some(Ok) && status.FAILED? ==> facts.restored.Some?)
      && (facts.restored.Some? ==> facts.replaced == Some(Ok))
  }

  predicate Inv(s: State, facts: Facts) {
    Fits(s.requester, facts)
    && (!s.requester.Idle? ==> s.config == if NextIsLeft(facts) then s.requester.next else s.requester.prev)
  }

  lemma NextKeepsInv(s: State, step: Step, facts: Facts)
    requires Inv(s, facts) && Next(s, step).Some?
    ensures Inv(Next(s, step).value, Noted(facts, step))
  {
    hide DecideOn, IsRequest;
  }

  lemma {:induction false} RunKeepsInv(s: State, steps: seq<Step>, facts: Facts)
    requires Inv(s, facts) && Run(s, steps).Some?
    ensures Inv(Run(s, steps).value, FactsOf(facts, steps))
    decreases |steps|
  {
    if steps != [] {
      hide Inv, Next, Noted;
      NextKeepsInv(s, steps[0], facts);
      RunKeepsInv(Next(s, steps[0]).value, steps[1..], Noted(facts, steps[0]));
    }
  }

  /** Over every run, crashes of either side included: an apply answers SUCCEEDED or
      ROLLED_BACK exactly after it found the supervisor healthy, ROLLED_BACK exactly if the
      previous config was written back before; it does not answer FAILED after the config was
      replaced without having tried to write the previous one back. The config on disk is the
      new one after SUCCEEDED and the previous one otherwise, unless the two are the same or
      one of the writes ended half-way: the first failed after its rename, or the second
      before. */
  lemma AnswersAreMeant(s: State, steps: seq<Step>)
    requires s.requester.Idle? && Run(s, steps).Some? && Run(s, steps).value.requester.Done?
    ensures var facts := FactsOf(NOTHING, steps);
            var t := Run(s, steps).value;
            var r := t.requester;
            && (r.status == SUCCEEDED <==> facts.healthy && facts.restored == None)
            && (r.status == ROLLED_BACK <==> facts.healthy && facts.restored == Some(Ok))
            && (r.status == FAILED <==> !facts.healthy)
            && (r.status == FAILED && facts.replaced == Some(Ok) ==> facts.restored.Some?)
            && (t.config == (if r.status == SUCCEEDED then r.next else r.prev) <==>
                  (facts.replaced != Some(After) && facts.restored != Some(Before)) || r.prev == r.next)
            && (t.config == r.prev || t.config == r.next)
  {
    RunKeepsInv(s, steps, NOTHING);
    hide Run, FactsOf;
  }

  // ---- step by step ---------------------------------------------------------------

  predicate BeforeRollback(r: Requester) { (r.Requesting? || r.Waiting? || r.Verifying?) && !r.back }

  predicate DuringRollback(r: Requester) { (r.Requesting? || r.Waiting? || r.Verifying?) && r.back }

  predicate Refuses(ack: Ack, request: Request) {
    DecideOn(ack, request).HashMismatch? || DecideOn(ack, request).Rejected?
  }

  /** The operation the requester is at did not do what it should. */
  predicate WentWrong(s: State, step: Step) {
    || (step.WriteRequest? && step.fault != Ok)
    || step == TimeOut
    || (step == ReadAck && s.requester.Waiting? && s.ack.Some? && Refuses(s.ack.value, s.requester.request))
    || step == Health(false)
  }

  /** Whatever goes wrong between the replacement of the config and the rollback leads to the
      rollback, and nothing else does; the same during the rollback is the failure. */
  lemma WrongMeansRollback(s: State, step: Step)
    requires Next(s, step).Some? && (BeforeRollback(s.requester) || DuringRollback(s.requester))
    ensures var r, q := s.requester, Next(s, step).value.requester;
            && (BeforeRollback(r) ==>
                  && (q == Restoring(r.prev, r.next) <==> WentWrong(s, step))
                  && (q.Done? <==> step == Health(true))
                  && (q.Done? ==> q.status == SUCCEEDED))
            && (DuringRollback(r) ==>
                  && (q.Done? && q.status == FAILED <==> WentWrong(s, step))
                  && (q.Done? && q.status == ROLLED_BACK <==> step == Health(true))
                  && (q.Done? ==> q.status != SUCCEEDED))
            && (q.Idle? <==> step == RequesterCrash)
            && (!q.Idle? ==> q.prev == r.prev && q.next == r.next)
  {
    hide IsRequest, DecideOn;
  }

  /** What remains of an apply when everything goes wrong and the supervisor does nothing. */
  function WayOut(r: Requester, first: Request): seq<Step> {
    match r
    case Replacing(_, _) => [Replace(Before)]
    case Requesting(_, _, back) => [WriteRequest(first, Before)] + if back then [] else [Restore(Before)]
    case Waiting(_, _, back, _) => [TimeOut] + if back then [] else [Restore(Before)]
    case Verifying(_, _, back, _) => [Health(false)] + if back then [] else [Restore(Before)]
    case Restoring(_, _) => [Restore(Before)]
    case _ => []
  }

  /** An apply never hangs: wherever it stands, it can end by its own steps. */
  lemma NeverHangs(s: State, request: Request)
    requires !s.requester.Idle? && IsRequest(request) && request.id !in s.used
    ensures var steps := WayOut(s.requester, request);
            && (forall step :: step in steps ==> !OfSupervisor(step))
            && Run(s, steps).Some? && Run(s, steps).value.requester.Done?
  {
    hide DecideOn, IsRequest;
    var steps := WayOut(s.requester, request);
    if steps != [] {
      var t := Next(s, steps[0]).value;
      assert Run(t, []) == Some(t);
      if |steps| == 2 {
        assert steps[1..] == [Restore(Before)] && steps[1..][1..] == [];
        var u := Next(t, Restore(Before)).value;
        assert Run(u, []) == Some(u);
      }
    }
  }
}
