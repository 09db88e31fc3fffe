/**
  The single source of truth for the system mode: backend/src/degradation/state_service.py.

  Every call is atomic (the Python code holds a lock), and `now` is the monotonic clock read inside it.
 */
module StateService {
  import opened Common
  import opened SystemModes
  import opened TradingGates

  datatype ServiceError = OperatorRequired | ReasonRequired | TtlNotPositive | GateRefused | NotRecovering

  datatype Override = Override(mode: Mode, ttl: int, operatorId: string, reason: string, start: real)

  /** A recorded transition; `forced` holds the operator and the time to live of a forced one. */
  datatype Transition = Transition(from: Mode, to: Mode, reason: Reason, forced: Option<(string, int)>)

  datatype Service = Service(mode: Mode, stage: Option<Stage>, override: Option<Override>,
                             history: seq<Transition>, gate: GateState)

  const ColdStartState := Service(Recovering, Some(ConnectBroker), None, [], GateState(Recovering, Some(ConnectBroker)))

  /** The override is in force: its time to live has not passed. */
  predicate Live(o: Option<Override>, now: real) {
    o.Some? && now - o.value.start <= o.value.ttl as real
  }

  /** `is_force_override` drops an expired override as a side effect. */
  function Expire(s: Service, now: real): Service {
    if Live(s.override, now) then s else s.(override := None)
  }

  function TransitionTo(s: Service, target: Mode, reason: Reason): Service {
    var stage :=
      if target != Recovering then None
      else if s.stage.None? then Some(ConnectBroker)
      else s.stage;
    s.(mode := target, stage := stage,
       history := s.history + [Transition(s.mode, target, reason, None)],
       gate := GateState(target, stage))
  }

  function HandleEvent(s: Service, reason: Reason, now: real): Service {
    var s := Expire(s, now);
    if s.override.Some? || !CanTransition(s.mode, Target(reason)) then s
    else TransitionTo(s, Target(reason), reason)
  }

  /** What Python's `strip` takes off. */
  predicate IsSpace(c: char) {
    || c == ' ' || '\t' <= c <= '\r' || '\U{1C}' <= c <= '\U{1F}' || c == '\U{85}' || c == '\U{A0}' || c == '\U{1680}'
    || '\U{2000}' <= c <= '\U{200A}' || '\U{2028}' <= c <= '\U{2029}' || c == '\U{202F}' || c == '\U{205F}'
    || c == '\U{3000}'
  }

  /** Empty after `strip`. */
  predicate Blank(s: string) {
    forall i :: 0 <= i < |s| ==> IsSpace(s[i])
  }

  function ForceError(ttl: int, operatorId: string, why: string): Option<ServiceError> {
    if Blank(operatorId) then Some(OperatorRequired)
    else if Blank(why) then Some(ReasonRequired)
    else if ttl <= 0 then Some(TtlNotPositive)
    else None
  }

  /** The state after `force_mode`, and the error it raises if any. The gate refuses Recovering without a stage
      only after the override and the mode have been set. */
  function ForceMode(s: Service, mode: Mode, ttl: int, operatorId: string, why: string, now: real):
      (Service, Option<ServiceError>)
  {
    var error := ForceError(ttl, operatorId, why);
    if error.Some? then (s, error)
    else
      var stage := if mode != Recovering then None else s.stage;
      var set_ := s.(override := Some(Override(mode, ttl, operatorId, why, now)), mode := mode, stage := stage);
      if mode == Recovering && stage.None? then (set_, Some(GateRefused))
      else
        (set_.(gate := GateState(mode, stage),
               history := s.history + [Transition(s.mode, mode, ColdStart, Some((operatorId, ttl)))]), None)
  }

  function UpdateRecoveryStage(s: Service, stage: Stage): (Service, Option<ServiceError>) {
    if s.mode != Recovering then (s, Some(NotRecovering))
    else (s.(stage := Some(stage), gate := GateState(Recovering, Some(stage))), None)
  }

  class SystemStateService {
    var mode: Mode
    var stage: Option<Stage>
    var forceOverride: Option<Override>
    var transitionHistory: seq<Transition>
    const gate: TradingGate

    function State(): Service
      reads this, gate
    {
      Service(mode, stage, forceOverride, transitionHistory, gate.State())
    }

    constructor (gate: TradingGate)
      modifies gate
      ensures this.gate == gate
      ensures State() == ColdStartState
    {
      mode, stage, forceOverride, transitionHistory := Recovering, Some(ConnectBroker), None, [];
      this.gate := gate;
      new;
      var _ := gate.UpdateMode(mode, stage);
    }

    method IsForceOverride(now: real) returns (active: bool)
      modifies this
      ensures State() == Expire(old(State()), now)
      ensures active == State().override.Some?
    {
      if forceOverride.None? {
        return false;
      }
      var elapsed := now - forceOverride.value.start;
      if elapsed > forceOverride.value.ttl as real {
        forceOverride := None;
        return false;
      }
      active := true;
    }

    method Handle(reason: Reason, now: real)
      modifies this, gate
      ensures State() == HandleEvent(old(State()), reason, now)
    {
      var overridden := IsForceOverride(now);
      if overridden {
        return;
      }
      var target := Target(reason);
      if !CanTransition(mode, target) {
        return;
      }
      var oldMode := mode;
      mode := target;
      if target == Recovering {
        if stage.None? {
          stage := Some(ConnectBroker);
        }
      } else {
        stage := None;
      }
      var _ := gate.UpdateMode(target, stage);
      transitionHistory := transitionHistory + [Transition(oldMode, target, reason, None)];
    }

    method Force(newMode: Mode, ttl: int, operatorId: string, why: string, now: real) returns (r: Option<ServiceError>)
      modifies this, gate
      ensures (State(), r) == ForceMode(old(State()), newMode, ttl, operatorId, why, now)
    {
      if Blank(operatorId) {
        return Some(OperatorRequired);
      }
      if Blank(why) {
        return Some(ReasonRequired);
      }
      if ttl <= 0 {
        return Some(TtlNotPositive);
      }
      var oldMode := mode;
      forceOverride := Some(Override(newMode, ttl, operatorId, why, now));
      mode := newMode;
      if newMode != Recovering {
        stage := None;
      }
      var updated := gate.UpdateMode(newMode, stage);
      if updated.Failure? {
        return Some(GateRefused);
      }
      transitionHistory := transitionHistory + [Transition(oldMode, newMode, ColdStart, Some((operatorId, ttl)))];
      r := None;
    }

    method UpdateStage(newStage: Stage) returns (r: Option<ServiceError>)
      modifies this, gate
      ensures (State(), r) == UpdateRecoveryStage(old(State()), newStage)
    {
      if mode != Recovering {
        return Some(NotRecovering);
      }
      stage := Some(newStage);
      var _ := gate.UpdateMode(mode, stage);
      r := None;
    }
  }

  // --------------------------------------------------------------------------------------------
  // What every run keeps
  // --------------------------------------------------------------------------------------------

  datatype Call =
    | EventCall(reason: Reason, now: real)
    | ForceCall(mode: Mode, ttl: int, operatorId: string, why: string, now: real)
    | StageCall(stage: Stage)
    | OverrideQuery(now: real)

  /** The state after a call, whether it returned or raised. */
  function Step(s: Service, c: Call): Service {
    match c
    case EventCall(reason, now) => HandleEvent(s, reason, now)
    case ForceCall(mode, ttl, operatorId, why, now) => ForceMode(s, mode, ttl, operatorId, why, now).0
    case StageCall(stage) => UpdateRecoveryStage(s, stage).0
    case OverrideQuery(now) => Expire(s, now)
  }

  function Run(s: Service, calls: seq<Call>): Service {
    if |calls| == 0 then s else Step(Run(s, calls[..|calls| - 1]), calls[|calls| - 1])
  }

  /** A path of transitions from one mode to another, each automatic one as the matrix and the conflict rule say. */
  ghost predicate Path(history: seq<Transition>, from: Mode, to: Mode) {
    && (|history| == 0 ==> from == to)
    && (|history| > 0 ==> history[0].from == from && history[|history| - 1].to == to)
    && (forall i :: 0 <= i < |history| - 1 ==> history[i].to == history[i + 1].from)
    && (forall i :: 0 <= i < |history| && history[i].forced.None? ==>
          Target(history[i].reason) == history[i].to && CanTransition(history[i].from, history[i].to))
  }

  ghost predicate Consistent(s: Service) {
    && s.gate == GateState(s.mode, s.stage)
    && (s.stage.Some? <==> s.mode == Recovering)
    && (s.override.Some? ==> s.override.value.mode == s.mode)
    && Path(s.history, Recovering, s.mode)
  }

  /** A forced move to Recovering, accepted by validation, while no stage is set. */
  predicate Stranding(s: Service, c: Call) {
    c.ForceCall? && c.mode == Recovering && s.stage.None? && ForceError(c.ttl, c.operatorId, c.why).None?
  }

  lemma PathExtends(history: seq<Transition>, from: Mode, t: Transition)
    requires Path(history, from, t.from)
    requires t.forced.None? ==> Target(t.reason) == t.to && CanTransition(t.from, t.to)
    ensures Path(history + [t], from, t.to)
  {
  }

  /** One call keeps the service consistent unless, and only unless, it strands it. */
  lemma StepConsistentIff(s: Service, c: Call)
    requires Consistent(s)
    ensures Consistent(Step(s, c)) <==> !Stranding(s, c)
  {
    match c
    case EventCall(reason, now) =>
      if CanTransition(s.mode, Target(reason)) {
        PathExtends(s.history, Recovering, Transition(s.mode, Target(reason), reason, None));
      }
    case ForceCall(mode, ttl, operatorId, why, now) =>
      PathExtends(s.history, Recovering, Transition(s.mode, mode, ColdStart, Some((operatorId, ttl))));
    case StageCall(_) =>
    case OverrideQuery(_) =>
  }

  /** Some call of the run strands the service. */
  predicate Strands(s: Service, calls: seq<Call>) {
    |calls| > 0
    && (Strands(s, calls[..|calls| - 1]) || Stranding(Run(s, calls[..|calls| - 1]), calls[|calls| - 1]))
  }

  function EndOf(history: seq<Transition>): Mode {
    if |history| == 0 then Recovering else history[|history| - 1].to
  }

  /** The history has a gap, or is about to have one. */
  ghost predicate Severed(s: Service) {
    || !Path(s.history, Recovering, EndOf(s.history))
    || (s.mode == Recovering && EndOf(s.history) != Recovering)
  }

  /** A gap in the history never closes. */
  lemma SeveredStays(s: Service, c: Call)
    requires Severed(s)
    ensures Severed(Step(s, c))
  {
    var s' := Step(s, c);
    if s'.history != s.history {
      var t := s'.history[|s.history|];
      assert s'.history == s.history + [t] && t.from == s.mode;
      PathShrinks(s.history, t);
    }
  }

  lemma PathShrinks(history: seq<Transition>, t: Transition)
    ensures Path(history + [t], Recovering, t.to) ==>
              Path(history, Recovering, EndOf(history)) && EndOf(history) == t.from
  {
    var longer := history + [t];
    if Path(longer, Recovering, t.to) {
      assert forall i :: 0 <= i < |history| ==> history[i] == longer[i];
      if |history| > 0 {
        assert longer[|history| - 1].to == longer[|history|].from;
      }
    }
  }

  /** Over every run from cold start: gate and service agree on mode and stage, a stage is present exactly in
      Recovering, a live override's mode is in force, and the history is a linked path of legal transitions from
      Recovering to the current mode - if and only if no call of the run strands the service. */
  lemma {:induction false} RunConsistentIff(calls: seq<Call>)
    ensures Consistent(Run(ColdStartState, calls)) <==> !Strands(ColdStartState, calls)
    ensures Strands(ColdStartState, calls) ==> Severed(Run(ColdStartState, calls))
  {
    if |calls| > 0 {
      var n := |calls| - 1;
      RunConsistentIff(calls[..n]);
      var before := Run(ColdStartState, calls[..n]);
      if Strands(ColdStartState, calls[..n]) {
        SeveredStays(before, calls[n]);
      } else {
        StepConsistentIff(before, calls[n]);
      }
    }
  }

  /** While the service is consistent, querying is allowed, whatever the mode and stage. */
  lemma ConsistentAllowsQuery(s: Service)
    requires Consistent(s)
    ensures Query in Allowed(s.gate)
    ensures s.mode == Recovering ==> Allowed(s.gate) == StageActions(s.stage.value)
  {
  }

  /** The concrete stranding: forcing Recovering out of Halt leaves the service recovering without a stage while the
      gate still enforces Halt. */
  lemma ForcedRecoveryStrands()
    ensures var s := ForceMode(ColdStartState, Halt, 60, "op", "incident", 0.0).0;
            var r := ForceMode(s, Recovering, 60, "op", "resume", 1.0);
            && r.1 == Some(GateRefused)
            && r.0.mode == Recovering && r.0.stage.None? && r.0.gate.mode == Halt
  {
    assert !IsSpace("op"[0]) && !IsSpace("incident"[0]) && !IsSpace("resume"[0]);
  }

  // --------------------------------------------------------------------------------------------
  // Entering recovery
  // --------------------------------------------------------------------------------------------

  /** An event enters Recovering at the first stage, where only querying is allowed; one that stays in Recovering keeps
      the stage that was reached. */
  lemma RecoveryEntersAtFirstStage(s: Service, reason: Reason, now: real)
    requires Consistent(s) && HandleEvent(s, reason, now).mode == Recovering
    ensures var s' := HandleEvent(s, reason, now);
            if s.mode == Recovering then s'.stage == s.stage && s'.gate == s.gate
            else s'.stage == Some(ConnectBroker) && Allowed(s'.gate) == {Query}
  {
  }

  predicate AtFirstStage(s: Service) {
    && (s.stage.None? || s.stage == Some(ConnectBroker))
    && (s.gate.mode == Recovering ==> s.gate.stage == Some(ConnectBroker))
  }

  predicate NoStageCalls(calls: seq<Call>) {
    forall i :: 0 <= i < |calls| ==> !calls[i].StageCall?
  }

  lemma {:induction false} FirstStageStays(s: Service, calls: seq<Call>)
    requires AtFirstStage(s) && NoStageCalls(calls)
    ensures AtFirstStage(Run(s, calls))
  {
    if |calls| > 0 {
      var n := |calls| - 1;
      FirstStageStays(s, calls[..n]);
      assert !calls[n].StageCall?;
    }
  }

  /** From any consistent state that is not past the first stage, whatever events, forced modes and times follow: while
      the gate enforces recovery nothing but querying is allowed, until a stage is set. */
  lemma OnlyQueryingUntilStageCall(s: Service, calls: seq<Call>)
    requires Consistent(s) && (s.mode == Recovering ==> s.stage == Some(ConnectBroker))
    requires NoStageCalls(calls)
    ensures var gate := Run(s, calls).gate; gate.mode == Recovering ==> Allowed(gate) == {Query}
  {
    FirstStageStays(s, calls);
    assert forall stage :: stage == ConnectBroker ==> Allowed(GateState(Recovering, Some(stage))) == {Query};
  }

  // --------------------------------------------------------------------------------------------
  // Overrides
  // --------------------------------------------------------------------------------------------

  /** Some character is left after `strip`. */
  predicate Says(s: string) {
    exists i :: 0 <= i < |s| && !IsSpace(s[i])
  }

  /** A mode is forced exactly when operator and reason say something, the time to live is positive, and Recovering has
      a stage to be in; otherwise the error names the first of these that fails, and only the last leaves a trace. */
  lemma ForceAcceptedIff(s: Service, mode: Mode, ttl: int, operatorId: string, why: string, now: real)
    ensures var (s', error) := ForceMode(s, mode, ttl, operatorId, why, now);
            && (error.None? <==> Says(operatorId) && Says(why) && ttl > 0 && (mode == Recovering ==> s.stage.Some?))
            && (error == Some(OperatorRequired) <==> !Says(operatorId))
            && (error == Some(ReasonRequired) <==> Says(operatorId) && !Says(why))
            && (error == Some(TtlNotPositive) <==> Says(operatorId) && Says(why) && ttl <= 0)
            && (error.None? ==>
                  && s'.mode == s'.gate.mode == mode && s'.stage == s'.gate.stage
                  && s'.stage == (if mode == Recovering then s.stage else None)
                  && s'.override == Some(Override(mode, ttl, operatorId, why, now))
                  && s'.history == s.history + [Transition(s.mode, mode, ColdStart, Some((operatorId, ttl)))])
            && (error.Some? && error != Some(GateRefused) ==> s' == s)
  {
    hide IsSpace;
  }

  /** The call forces nothing and comes within the time to live. */
  predicate During(c: Call, end: real) {
    match c
    case EventCall(_, now) => now <= end
    case OverrideQuery(now) => now <= end
    case StageCall(_) => true
    case ForceCall(_, _, _, _, _) => false
  }

  lemma {:induction false} OverrideStays(s: Service, o: Override, calls: seq<Call>)
    requires s.override == Some(o) && s.mode == s.gate.mode == o.mode
    requires forall i :: 0 <= i < |calls| ==> During(calls[i], o.start + o.ttl as real)
    ensures var r := Run(s, calls); r.override == Some(o) && r.mode == r.gate.mode == o.mode
  {
    if |calls| > 0 {
      var n := |calls| - 1;
      OverrideStays(s, o, calls[..n]);
      assert During(calls[n], o.start + o.ttl as real);
    }
  }

  /** A forced mode stays in force, in service and gate, through all events and stages within its time to live; the next
      event is taken if and only if that time has passed. */
  lemma OverrideHoldsUntilExpiry(s: Service, mode: Mode, ttl: int, operatorId: string, why: string, start: real,
                                 calls: seq<Call>, reason: Reason, now: real)
    requires ForceMode(s, mode, ttl, operatorId, why, start).1.None?
    requires forall i :: 0 <= i < |calls| ==> During(calls[i], start + ttl as real)
    ensures var r := Run(ForceMode(s, mode, ttl, operatorId, why, start).0, calls);
            && r.mode == r.gate.mode == mode
            && HandleEvent(r, reason, now).mode
               == if now <= start + ttl as real then mode else ModeAfter(mode, [reason])
  {
    hide Run, Blank;
    var forced := ForceMode(s, mode, ttl, operatorId, why, start).0;
    OverrideStays(forced, Override(mode, ttl, operatorId, why, start), calls);
    assert [reason][..0] == [] && ModeAfter(mode, []) == mode;
  }

  // --------------------------------------------------------------------------------------------
  // Conflict resolution
  // --------------------------------------------------------------------------------------------

  /** The mode after a list of events with no override. */
  function ModeAfter(m: Mode, reasons: seq<Reason>): Mode {
    if |reasons| == 0 then m
    else
      var before := ModeAfter(m, reasons[..|reasons| - 1]);
      var target := Target(reasons[|reasons| - 1]);
      if CanTransition(before, target) then target else before
  }

  predicate IsFailure(r: Reason) {
    Target(r) != Normal && Target(r) != Recovering
  }

  predicate AllFailures(reasons: seq<Reason>) {
    forall i :: 0 <= i < |reasons| ==> IsFailure(reasons[i])
  }

  predicate AllEvents(calls: seq<Call>, reasons: seq<Reason>) {
    |calls| == |reasons| && forall i :: 0 <= i < |calls| ==> calls[i].EventCall? && calls[i].reason == reasons[i]
  }

  /** What the history records of such a list: every event that was taken, in order, from the mode it met. */
  function Taken(m: Mode, reasons: seq<Reason>): seq<Transition> {
    if |reasons| == 0 then []
    else
      var earlier, last := reasons[..|reasons| - 1], reasons[|reasons| - 1];
      var before, after := ModeAfter(m, earlier), ModeAfter(m, reasons);
      Taken(m, earlier) + if after == Target(last) then [Transition(before, after, last, None)] else []
  }

  /** Without an override the service follows the fold of its events, at whatever times they come. */
  lemma {:induction false} EventsFollowModeAfter(s: Service, calls: seq<Call>, reasons: seq<Reason>)
    requires s.override.None? && AllEvents(calls, reasons)
    ensures Run(s, calls).override.None?
    ensures Run(s, calls).mode == ModeAfter(s.mode, reasons)
    ensures Run(s, calls).history == s.history + Taken(s.mode, reasons)
  {
    if |calls| > 0 {
      hide HandleEvent, CanTransition;
      var n := |calls| - 1;
      EventsFollowModeAfter(s, calls[..n], reasons[..n]);
      EventTaken(Run(s, calls[..n]), calls[n].reason, calls[n].now);
      assert Taken(s.mode, reasons[..n]) + [] == Taken(s.mode, reasons[..n]);
    }
  }

  lemma EventTaken(s: Service, reason: Reason, now: real)
    requires s.override.None?
    ensures var s', target := HandleEvent(s, reason, now), Target(reason);
            && s'.override.None?
            && s'.mode == (if CanTransition(s.mode, target) then target else s.mode)
            && s'.history
               == s.history + if s'.mode == target then [Transition(s.mode, target, reason, None)] else []
  {
  }

  /** A run of failures ends in the most severe of the start mode and all their targets. */
  lemma {:induction false} FailuresReachMostSevere(m: Mode, reasons: seq<Reason>)
    requires AllFailures(reasons)
    ensures var e := ModeAfter(m, reasons);
            && (e == m || exists i :: 0 <= i < |reasons| && e == Target(reasons[i]))
            && Priority(e) >= Priority(m)
            && forall i :: 0 <= i < |reasons| ==> Priority(e) >= Priority(Target(reasons[i]))
  {
    if |reasons| > 0 {
      var n := |reasons| - 1;
      FailuresReachMostSevere(m, reasons[..n]);
      var before := ModeAfter(m, reasons[..n]);
      assert IsFailure(reasons[n]);
      forall i | 0 <= i < |reasons|
        ensures Priority(ModeAfter(m, reasons)) >= Priority(Target(reasons[i]))
      {
        if i < n {
          assert reasons[i] == reasons[..n][i];
        }
      }
    }
  }

  /** Only which failures occurred matters, not their order or number. */
  lemma FailureOrderIrrelevant(m: Mode, reasons: seq<Reason>, reasons': seq<Reason>)
    requires AllFailures(reasons) && AllFailures(reasons')
    requires forall r :: r in reasons <==> r in reasons'
    ensures ModeAfter(m, reasons) == ModeAfter(m, reasons')
  {
    FailuresReachMostSevere(m, reasons);
    FailuresReachMostSevere(m, reasons');
    var e, e' := ModeAfter(m, reasons), ModeAfter(m, reasons');
    if e != m {
      var i :| 0 <= i < |reasons| && e == Target(reasons[i]);
      assert reasons[i] in reasons';
    }
    if e' != m {
      var i :| 0 <= i < |reasons'| && e' == Target(reasons'[i]);
      assert reasons'[i] in reasons;
    }
    assert Priority(e) == Priority(e');
  }

  /** A recovery event always succeeds and wipes out everything before it: after any events, one recovery event and
      any failures, the mode is the most severe of that event's target and the failures since. */
  lemma {:induction false} LastRecoveryDecides(m: Mode, earlier: seq<Reason>, recovery: Reason, failures: seq<Reason>)
    requires !IsFailure(recovery)
    ensures ModeAfter(m, earlier + [recovery] + failures) == ModeAfter(Target(recovery), failures)
  {
    var all := earlier + [recovery] + failures;
    if |failures| == 0 {
      assert all[..|all| - 1] == earlier;
    } else {
      var n := |failures| - 1;
      assert all[..|all| - 1] == earlier + [recovery] + failures[..n];
      LastRecoveryDecides(m, earlier, recovery, failures[..n]);
    }
  }

  /** From any consistent state without override, failures only take permissions away - always outside Recovering, and
      in Recovering exactly when there are none, or they end where only querying is left, or in safe mode after the
      last stage. */
  lemma FailuresRestrictIff(s: Service, calls: seq<Call>, reasons: seq<Reason>)
    requires Consistent(s) && s.override.None?
    requires AllEvents(calls, reasons) && AllFailures(reasons)
    ensures var e := ModeAfter(s.mode, reasons);
            Allowed(Run(s, calls).gate) <= Allowed(s.gate) <==>
            || s.mode != Recovering
            || |reasons| == 0
            || e == SafeModeDisconnected || e == Halt
            || (e == SafeMode && s.stage == Some(Ready))
  {
    assert |calls| == 0 ==> Run(s, calls) == s;
    hide Run;
    EventsFollowModeAfter(s, calls, reasons);
    FailuresReachMostSevere(s.mode, reasons);
    EventsKeepConsistent(s, calls);
    if s.mode != Recovering {
      SeverityShrinksPermissions(s.gate, Run(s, calls).gate);
    } else if |reasons| > 0 {
      assert IsFailure(reasons[0]);
      FailureGrants(s.stage.value, ModeAfter(s.mode, reasons));
    }
  }

  /** What a failure mode grants against what a recovery stage does. */
  lemma FailureGrants(stage: Stage, e: Mode)
    requires e != Recovering && e != Normal
    ensures Allowed(GateState(e, None)) <= Allowed(GateState(Recovering, Some(stage))) <==>
            e == SafeModeDisconnected || e == Halt || (e == SafeMode && stage == Ready)
  {
    var after, before := Allowed(GateState(e, None)), Allowed(GateState(Recovering, Some(stage)));
    assert Open !in before && (e == Degraded ==> Open in after);
    assert e == SafeMode ==> ReduceOnly in after;
  }

  /** Read by reason: the failures under which trading goes on, those that halt it, and what is no failure. Losing the
      broker's connection also leaves nothing but querying, of local data; the remaining three make it safe mode. */
  const SOFT: set<Reason> := {MdQualityDegraded, DbWriteFail, AlertsChannelDown}
  const HALTING: set<Reason> := {BrokerReportMismatch, RiskBreachHard, PositionTruthUnknown, RecoveryFailed}
  const RECOVERIES: set<Reason> := {BrokerReconnected, ColdStart, AllHealthy}

  predicate Only(reasons: seq<Reason>, kinds: set<Reason>) {
    forall r :: r in reasons ==> r in kinds
  }

  predicate NoneOf(reasons: seq<Reason>, kinds: set<Reason>) {
    forall r :: r in reasons ==> r !in kinds
  }

  /** What any run of failures out of Normal leaves allowed: trading exactly when all of them are soft, cancelling and
      reducing exactly when none halts or disconnects; opening is restricted once anything has failed, and data are
      local exactly while disconnected and not halted. */
  lemma FailuresAllowIff(s: Service, calls: seq<Call>, reasons: seq<Reason>)
    requires Consistent(s) && s.mode == Normal && s.override.None?
    requires AllEvents(calls, reasons) && NoneOf(reasons, RECOVERIES)
    ensures var gate := Run(s, calls).gate;
            && (forall a :: a in {Open, Send, Amend} ==> (a in Allowed(gate) <==> Only(reasons, SOFT)))
            && (forall a :: a in {Cancel, ReduceOnly} ==>
                  (a in Allowed(gate) <==> NoneOf(reasons, HALTING + {BrokerDisconnect})))
            && Query in Allowed(gate)
            && (Permission(gate, Open).restricted <==> reasons != [] && Only(reasons, SOFT))
            && (Permission(gate, Query).localOnly <==> BrokerDisconnect in reasons && NoneOf(reasons, HALTING))
  {
    hide Run, Allowed, Permission, ModeAfter, Consistent, AllEvents, Only, NoneOf;
    FailuresLeadTo(s, calls, reasons);
    ModeGrants(ModeAfter(Normal, reasons));
  }

  lemma FailuresLeadTo(s: Service, calls: seq<Call>, reasons: seq<Reason>)
    requires Consistent(s) && s.mode == Normal && s.override.None?
    requires AllEvents(calls, reasons) && NoneOf(reasons, RECOVERIES)
    ensures var e := ModeAfter(Normal, reasons);
            && e != Recovering && Run(s, calls).gate == GateState(e, None)
            && (e == Normal <==> reasons == [])
            && (Priority(e) <= Priority(Degraded) <==> Only(reasons, SOFT))
            && (Priority(e) <= Priority(SafeMode) <==> NoneOf(reasons, HALTING + {BrokerDisconnect}))
            && (e == SafeModeDisconnected <==> BrokerDisconnect in reasons && NoneOf(reasons, HALTING))
  {
    hide Run, ModeAfter, Only;
    EventsFollowModeAfter(s, calls, reasons);
    EventsKeepConsistent(s, calls) by {
      assert forall i :: 0 <= i < |calls| ==> calls[i].EventCall?;
    }
    assert AllFailures(reasons) by {
      assert forall i :: 0 <= i < |reasons| ==> reasons[i] in reasons;
    }
    hide NoneOf, AllFailures, AllEvents;
    FailuresReachMostSevere(Normal, reasons);
    SeverityByReason(ModeAfter(Normal, reasons), reasons);
  }

  lemma SeverityByReason(e: Mode, reasons: seq<Reason>)
    requires AllFailures(reasons)
    requires e == Normal || exists i :: 0 <= i < |reasons| && e == Target(reasons[i])
    requires forall i :: 0 <= i < |reasons| ==> Priority(e) >= Priority(Target(reasons[i]))
    ensures e != Recovering
    ensures e == Normal <==> reasons == []
    ensures Priority(e) <= Priority(Degraded) <==> Only(reasons, SOFT)
    ensures Priority(e) <= Priority(SafeMode) <==> NoneOf(reasons, HALTING + {BrokerDisconnect})
    ensures e == SafeModeDisconnected <==> BrokerDisconnect in reasons && NoneOf(reasons, HALTING)
  {
    forall r | r in reasons
      ensures Priority(e) >= Priority(Target(r)) && IsFailure(r)
    {
      var i :| 0 <= i < |reasons| && reasons[i] == r;
    }
    assert |reasons| > 0 ==> reasons[0] in reasons;
    if e != Normal {
      var i :| 0 <= i < |reasons| && e == Target(reasons[i]);
      assert reasons[i] in reasons;
    }
  }

  lemma ModeGrants(e: Mode)
    requires e != Recovering
    ensures var gate := GateState(e, None);
            && (forall a :: a in {Open, Send, Amend} ==> (a in Allowed(gate) <==> Priority(e) <= Priority(Degraded)))
            && (forall a :: a in {Cancel, ReduceOnly} ==> (a in Allowed(gate) <==> Priority(e) <= Priority(SafeMode)))
            && Query in Allowed(gate)
            && (Permission(gate, Open).restricted <==> e == Degraded)
            && (Permission(gate, Query).localOnly <==> e == SafeModeDisconnected)
  {
  }

  /** The other three reasons are taken in every mode unless an override is live: two start a recovery, the third ends
      everything. */
  lemma RecoveriesAlwaysTaken(s: Service, reason: Reason, now: real)
    requires reason in RECOVERIES
    ensures HandleEvent(s, reason, now).mode
         == if Live(s.override, now) then s.mode else if reason == AllHealthy then Normal else Recovering
  {
  }

  lemma {:induction false} EventsKeepConsistent(s: Service, calls: seq<Call>)
    requires Consistent(s)
    requires forall i :: 0 <= i < |calls| ==> calls[i].EventCall?
    ensures Consistent(Run(s, calls))
  {
    if |calls| > 0 {
      var n := |calls| - 1;
      EventsKeepConsistent(s, calls[..n]);
      StepConsistentIff(Run(s, calls[..n]), calls[n]);
    }
  }

  /** Degraded outranks Recovering: a failure during recovery can open trading that the recovery stage denied. */
  lemma DegradedGrantsMoreThanRecovering()
    ensures var s := HandleEvent(ColdStartState, DbWriteFail, 0.0);
            && s.mode == Degraded
            && Allowed(ColdStartState.gate) == {Query}
            && Allowed(s.gate) == {Open, Send, Amend, Cancel, ReduceOnly, Query}
  {
  }
}
