/**
  Staged recovery: backend/src/degradation/recovery.py driving the state service and, through it, the gate.

  Run ids are fresh: the n-th recovery started has id n. The stage checks are simulated in the Python code; here the
  outcome of a check is an input.
 */
module Recovery {
  import opened Common
  import opened SystemModes
  import opened TradingGates
  import opened StateService

  datatype System = System(service: Service, run: Option<nat>, stage: Option<Stage>, issued: nat)

  function NextStage(s: Stage): Stage
    requires s != Ready
  {
    match s
    case ConnectBroker => CatchupMarketData
    case CatchupMarketData => VerifyRisk
    case VerifyRisk => Ready
  }

  /** Python's `int(x)`. */
  function Truncate(x: real): int {
    if x >= 0.0 then x.Floor else -(-x).Floor
  }

  function Cleared(sys: System): System {
    sys.(run := None, stage := None)
  }

  /** `start_recovery`: the orchestrator commits to the new run before the service agrees to it. */
  function Start(sys: System, now: real): (System, Option<ServiceError>) {
    var service :=
      if sys.service.mode != Recovering then HandleEvent(sys.service, BrokerReconnected, now) else sys.service;
    var updated := UpdateRecoveryStage(service, ConnectBroker);
    (System(updated.0, Some(sys.issued), Some(ConnectBroker), sys.issued + 1), updated.1)
  }

  /** `advance_stage`, given the outcome of the stage check. */
  function Advance(sys: System, id: nat, passed: bool, now: real): (System, Result<bool, ServiceError>) {
    if sys.run != Some(id) || sys.stage.None? || !passed then
      (sys, Success(false))
    else if sys.stage.value == Ready then
      (Cleared(sys).(service := HandleEvent(sys.service, AllHealthy, now)), Success(true))
    else
      var next := NextStage(sys.stage.value);
      var updated := UpdateRecoveryStage(sys.service, next);
      (sys.(stage := Some(next), service := updated.0),
       if updated.1.Some? then Failure(updated.1.value) else Success(true))
  }

  /** `abort_recovery`: the operator is cleared before it is read, so the override is always the system's. */
  function Abort(sys: System, id: nat, why: string, minSafeSeconds: real, now: real): (System, Option<ServiceError>) {
    if sys.run != Some(id) then (sys, None)
    else
      var forced :=
        ForceMode(sys.service, SafeMode, Truncate(minSafeSeconds), "system", "Recovery aborted: " + why, now);
      (Cleared(sys).(service := forced.0), forced.1)
  }

  class RecoveryOrchestrator {
    const service: SystemStateService
    var currentRunId: Option<nat>
    var currentStage: Option<Stage>
    var issued: nat

    function State(): System
      reads this, service, service.gate
    {
      System(service.State(), currentRunId, currentStage, issued)
    }

    constructor (service: SystemStateService)
      ensures this.service == service
      ensures State() == System(service.State(), None, None, 0)
    {
      this.service := service;
      currentRunId, currentStage, issued := None, None, 0;
    }

    method StartRecovery(now: real) returns (runId: nat, r: Option<ServiceError>)
      modifies this, service, service.gate
      ensures (State(), r) == Start(old(State()), now)
      ensures State().run == Some(runId)
    {
      if currentRunId.Some? {
        ClearState();
      }
      runId := issued;
      issued := issued + 1;
      currentRunId := Some(runId);
      currentStage := Some(ConnectBroker);
      if service.mode != Recovering {
        service.Handle(BrokerReconnected, now);
      }
      r := service.UpdateStage(ConnectBroker);
    }

    method AdvanceStage(runId: nat, checkPassed: bool, now: real) returns (r: Result<bool, ServiceError>)
      modifies this, service, service.gate
      ensures (State(), r) == Advance(old(State()), runId, checkPassed, now)
    {
      if currentRunId.None? || runId != currentRunId.value {
        return Success(false);
      }
      if currentStage.None? || !checkPassed {
        return Success(false);
      }
      var currentIdx := StageIndex(currentStage.value);
      if currentIdx >= 3 {
        ClearState();
        service.Handle(AllHealthy, now);
        return Success(true);
      }
      var next := NextStage(currentStage.value);
      currentStage := Some(next);
      var error := service.UpdateStage(next);
      r := if error.Some? then Failure(error.value) else Success(true);
    }

    method AbortRecovery(runId: nat, why: string, minSafeSeconds: real, now: real) returns (r: Option<ServiceError>)
      modifies this, service, service.gate
      ensures (State(), r) == Abort(old(State()), runId, why, minSafeSeconds, now)
    {
      if currentRunId.None? || runId != currentRunId.value {
        return None;
      }
      ClearState();
      r := service.Force(SafeMode, Truncate(minSafeSeconds), "system", "Recovery aborted: " + why, now);
    }

    method ClearState()
      modifies this
      ensures State() == Cleared(old(State()))
    {
      currentRunId, currentStage := None, None;
    }
  }

  // --------------------------------------------------------------------------------------------
  // Properties
  // --------------------------------------------------------------------------------------------

  /** Orchestrator, service and gate agree: a live run has a stage, the system is recovering in exactly that stage,
      and the gate permits exactly that stage's actions. */
  ghost predicate Coherent(sys: System) {
    && Consistent(sys.service)
    && (sys.run.Some? <==> sys.stage.Some?)
    && (sys.run.Some? ==>
          && sys.run.value < sys.issued
          && sys.service.mode == Recovering && sys.service.stage == sys.stage
          && Allowed(sys.service.gate) == StageActions(sys.stage.value))
  }

  /** Starting succeeds exactly when the system is already recovering or no override is in force; success makes the
      system coherent at the first stage, and failure leaves the orchestrator with a run the service never joined. */
  lemma StartSucceedsIff(sys: System, now: real)
    requires Consistent(sys.service)
    ensures var (sys', error) := Start(sys, now);
            && (error.None? <==> sys.service.mode == Recovering || !Live(sys.service.override, now))
            && sys'.run == Some(sys.issued)
            && (error.None? ==>
                  && Coherent(sys') && sys'.stage == Some(ConnectBroker)
                  && sys'.service.history
                     == sys.service.history
                        + if sys.service.mode == Recovering then []
                          else [Transition(sys.service.mode, Recovering, BrokerReconnected, None)])
            && (error.Some? ==> sys'.service == sys.service && !Coherent(sys'))
  {
    var s := sys.service;
    var s1 := if s.mode != Recovering then HandleEvent(s, BrokerReconnected, now) else s;
    StepConsistentIff(s, EventCall(BrokerReconnected, now));
    StepConsistentIff(s1, StageCall(ConnectBroker));
    assert Step(s1, StageCall(ConnectBroker)) == UpdateRecoveryStage(s1, ConnectBroker).0;
  }

  /** Calls with any id that is not the live run's change nothing. */
  lemma StaleIdsInert(sys: System, id: nat, passed: bool, why: string, minSafeSeconds: real, now: real)
    requires sys.run != Some(id)
    ensures Advance(sys, id, passed, now) == (sys, Success(false))
    ensures Abort(sys, id, why, minSafeSeconds, now) == (sys, None)
  {
  }

  datatype Request =
    | StartRequest(now: real)
    | AdvanceRequest(id: nat, passed: bool, now: real)
    | AbortRequest(id: nat, why: string, minSafeSeconds: real, now: real)
    | ServiceRequest(call: Call)

  /** The state after a request, whether it returned or raised; other parties may call the service in between. */
  function Serve(sys: System, q: Request): System {
    match q
    case StartRequest(now) => Start(sys, now).0
    case AdvanceRequest(id, passed, now) => Advance(sys, id, passed, now).0
    case AbortRequest(id, why, minSafeSeconds, now) => Abort(sys, id, why, minSafeSeconds, now).0
    case ServiceRequest(call) => sys.(service := Step(sys.service, call))
  }

  function ServeAll(sys: System, qs: seq<Request>): System {
    if |qs| == 0 then sys else Serve(ServeAll(sys, qs[..|qs| - 1]), qs[|qs| - 1])
  }

  /** Once superseded, completed or aborted, an id is dead for ever: after any further requests, a call carrying it
      still changes nothing. */
  lemma {:induction false} SupersededIdStaysDead(sys: System, qs: seq<Request>, id: nat, passed: bool, why: string,
                                                 minSafeSeconds: real, now: real)
    requires id < sys.issued && sys.run != Some(id)
    ensures var after := ServeAll(sys, qs);
            && Serve(after, AdvanceRequest(id, passed, now)) == after
            && Serve(after, AbortRequest(id, why, minSafeSeconds, now)) == after
  {
    DeadIdInvariant(sys, qs, id);
    StaleIdsInert(ServeAll(sys, qs), id, passed, why, minSafeSeconds, now);
  }

  lemma {:induction false} DeadIdInvariant(sys: System, qs: seq<Request>, id: nat)
    requires id < sys.issued && sys.run != Some(id)
    ensures var after := ServeAll(sys, qs); id < after.issued && after.run != Some(id)
  {
    if |qs| > 0 {
      DeadIdInvariant(sys, qs[..|qs| - 1], id);
    }
  }

  // --------------------------------------------------------------------------------------------
  // Progress
  // --------------------------------------------------------------------------------------------

  datatype Attempt = Attempt(id: nat, passed: bool, now: real)

  function AdvanceAll(sys: System, attempts: seq<Attempt>): System {
    if |attempts| == 0 then sys
    else
      var last := attempts[|attempts| - 1];
      Advance(AdvanceAll(sys, attempts[..|attempts| - 1]), last.id, last.passed, last.now).0
  }

  /** How many attempts carry the id and pass their check. */
  function Successes(id: nat, attempts: seq<Attempt>): nat {
    if |attempts| == 0 then 0
    else
      var last := attempts[|attempts| - 1];
      Successes(id, attempts[..|attempts| - 1]) + if last.id == id && last.passed then 1 else 0
  }

  /** When the n-th of them came. */
  function SuccessTime(id: nat, attempts: seq<Attempt>, n: nat): real
    requires 0 < n <= Successes(id, attempts)
  {
    var before := attempts[..|attempts| - 1];
    if n <= Successes(id, before) then SuccessTime(id, before, n) else attempts[|attempts| - 1].now
  }

  /** The mode that reporting a completed recovery leads to: an override in force swallows the report. */
  function ModeAtCompletion(o: Option<Override>, now: real): Mode {
    if Live(o, now) then Recovering else Normal
  }

  /** With no other call in between, the stage is exactly the start stage plus the number of successful attempts under
      the live id, whatever stale or failing attempts are mixed in; the success after Ready ends the run, in Normal
      unless, and only unless, an override is in force at that very moment. */
  lemma {:induction false} AdvancesReachNormal(sys: System, attempts: seq<Attempt>)
    requires Coherent(sys) && sys.run.Some?
    ensures var done := StageIndex(sys.stage.value) + Successes(sys.run.value, attempts);
            var after := AdvanceAll(sys, attempts);
            && Coherent(after)
            && (done <= 3 ==>
                  && after.run == sys.run && StageIndex(after.stage.value) == done
                  && after.service.override == sys.service.override)
            && (done >= 4 ==>
                  && after.run.None?
                  && after.service.mode
                     == ModeAtCompletion(sys.service.override,
                                         SuccessTime(sys.run.value, attempts, 4 - StageIndex(sys.stage.value))))
  {
    hide Advance, Consistent, Allowed, StageActions, ModeAtCompletion;
    if |attempts| > 0 {
      var n := |attempts| - 1;
      AdvancesReachNormal(sys, attempts[..n]);
      AdvanceKeepsCoherent(AdvanceAll(sys, attempts[..n]), attempts[n]);
    }
  }

  lemma AdvanceKeepsCoherent(sys: System, a: Attempt)
    requires Coherent(sys)
    ensures var after := Advance(sys, a.id, a.passed, a.now).0;
            && Coherent(after)
            && (sys.run != Some(a.id) || !a.passed ==> after == sys)
            && (sys.run == Some(a.id) && a.passed ==>
                  if sys.stage.value == Ready then
                    after.run.None? && after.service.mode == ModeAtCompletion(sys.service.override, a.now)
                  else
                    && after.run == sys.run && after.stage == Some(NextStage(sys.stage.value))
                    && after.service.override == sys.service.override)
  {
    if sys.run == Some(a.id) && a.passed {
      if sys.stage.value == Ready {
        StepConsistentIff(sys.service, EventCall(AllHealthy, a.now));
      } else {
        StepConsistentIff(sys.service, StageCall(NextStage(sys.stage.value)));
      }
    }
  }

  /** What an attempt answers, whoever has changed the service's mode meanwhile: progress exactly under the live id with
      its check passed, and an error exactly when a next stage is due and the system is no longer recovering - the
      orchestrator has then moved on to a stage that service and gate never reach. */
  lemma AdvanceAnswers(sys: System, id: nat, passed: bool, now: real)
    requires sys.run.Some? ==> sys.stage.Some?
    ensures var (after, answer) := Advance(sys, id, passed, now);
            var live := sys.run == Some(id) && passed;
            && (answer == Success(false) <==> !live)
            && (answer == Success(true) <==> live && (sys.stage.value == Ready || sys.service.mode == Recovering))
            && (answer == Failure(NotRecovering) <==>
                  live && sys.stage.value != Ready && sys.service.mode != Recovering)
            && (answer.Failure? ==>
                  && after.service == sys.service && after.run == sys.run
                  && StageIndex(after.stage.value) == StageIndex(sys.stage.value) + 1)
  {
  }

  /** From any consistent service on which a recovery can start, and any attempts: the recovery is over exactly when at
      least four of them succeeded, and then in Normal mode - unless the system was recovering under an override from
      the beginning and the override is still in force at the fourth success. */
  lemma FullRecovery(sys: System, start: real, attempts: seq<Attempt>)
    requires Consistent(sys.service)
    requires sys.service.mode == Recovering || !Live(sys.service.override, start)
    ensures var after, succeeded := AdvanceAll(Start(sys, start).0, attempts), Successes(sys.issued, attempts);
            && Coherent(after)
            && (after.run.None? <==> succeeded >= 4)
            && (after.run.Some? ==>
                  after.service.mode == Recovering && Allowed(after.service.gate) !! {Open, Send, Amend})
            && (succeeded >= 4 ==>
                  var forced := sys.service.mode == Recovering
                                && Live(sys.service.override, SuccessTime(sys.issued, attempts, 4));
                  after.service.mode == if forced then Recovering else Normal)
  {
    hide AdvanceAll, Successes, SuccessTime, Live;
    StartSucceedsIff(sys, start);
    var started := Start(sys, start).0;
    AdvancesReachNormal(started, attempts);
    StartedOverride(sys, start);
    var after := AdvanceAll(started, attempts);
    if after.run.Some? {
      StagesGrow(after.stage.value, after.stage.value);
    }
  }

  /** An override outlives the start of a recovery only if the system was recovering already. */
  lemma StartedOverride(sys: System, start: real)
    requires sys.service.mode == Recovering || !Live(sys.service.override, start)
    ensures var started := Start(sys, start).0;
            forall t: real :: Live(started.service.override, t)
                         <==> sys.service.mode == Recovering && Live(sys.service.override, t)
  {
  }

  /** A longer list of attempts never takes permissions away while the run lasts. */
  lemma PermissionsGrowDuringRecovery(sys: System, attempts: seq<Attempt>, more: seq<Attempt>)
    requires Coherent(sys) && sys.run.Some?
    requires AdvanceAll(sys, attempts + more).run.Some?
    ensures Allowed(AdvanceAll(sys, attempts).service.gate) <= Allowed(AdvanceAll(sys, attempts + more).service.gate)
  {
    assert attempts == (attempts + more)[..|attempts|];
    AdvancesReachNormal(sys, attempts);
    AdvancesReachNormal(sys, attempts + more);
    SuccessesMonotone(sys.run.value, attempts, more);
    StagesGrow(AdvanceAll(sys, attempts).stage.value, AdvanceAll(sys, attempts + more).stage.value);
  }

  lemma {:induction false} SuccessesMonotone(id: nat, attempts: seq<Attempt>, more: seq<Attempt>)
    ensures Successes(id, attempts) <= Successes(id, attempts + more)
  {
    if |more| == 0 {
      assert attempts + more == attempts;
    } else {
      var n := |more| - 1;
      assert (attempts + more)[..|attempts + more| - 1] == attempts + more[..n];
      SuccessesMonotone(id, attempts, more[..n]);
    }
  }

  /** Aborting puts its own override in the way: a new recovery can start only after the minimum safe-mode time, in
      whole seconds, has fully passed. With a minimum below one second the abort raises instead and the system stays
      recovering. */
  lemma AbortBlocksRestart(sys: System, why: string, minSafeSeconds: real, now: real, later: real)
    requires Coherent(sys) && sys.run.Some?
    ensures var (aborted, error) := Abort(sys, sys.run.value, why, minSafeSeconds, now);
            && aborted.run.None? && Coherent(aborted)
            && (error.None? <==> minSafeSeconds >= 1.0)
            && (error.Some? ==> aborted.service == sys.service)
            && (error.None? ==>
                  && aborted.service.mode == SafeMode
                  && aborted.service.override
                     == Some(Override(SafeMode, minSafeSeconds.Floor, "system", "Recovery aborted: " + why, now))
                  && (Start(aborted, later).1.None? <==> later - now > minSafeSeconds.Floor as real))
  {
    assert !IsSpace("system"[0]);
    assert !IsSpace(("Recovery aborted: " + why)[0]);
    assert Truncate(minSafeSeconds) > 0 <==> minSafeSeconds >= 1.0;
    StepConsistentIff(sys.service,
                      ForceCall(SafeMode, Truncate(minSafeSeconds), "system", "Recovery aborted: " + why, now));
    var aborted := Abort(sys, sys.run.value, why, minSafeSeconds, now).0;
    StartSucceedsIff(aborted, later);
  }
}
