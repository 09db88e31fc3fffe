/** The permission gate of backend/src/degradation/trading_gate.py. */
module TradingGates {
  import opened Common
  import opened SystemModes

  datatype PermissionResult = PermissionResult(allowed: bool, warning: Option<string>, restricted: bool,
                                               localOnly: bool)

  datatype GateError = StageRequired

  datatype GateState = GateState(mode: Mode, stage: Option<Stage>)

  const DENIED := PermissionResult(false, None, false, false)
  const PERMITTED := PermissionResult(true, None, false, false)

  /** The matrix row of a mode other than Recovering. */
  function ModePermission(mode: Mode, action: Action): PermissionResult
    requires mode != Recovering
  {
    match mode
    case Normal => PERMITTED
    case Degraded => if action == Open then PERMITTED.(restricted := true) else PERMITTED
    case SafeMode =>
      if action == Cancel then
        PERMITTED.(warning := Some("Cancel is best-effort; broker connection may be unstable"))
      else if action == ReduceOnly || action == Query then PERMITTED
      else DENIED
    case SafeModeDisconnected => if action == Query then PERMITTED.(localOnly := true) else DENIED
    case Halt => if action == Query then PERMITTED else DENIED
  }

  function StageActions(stage: Stage): set<Action> {
    match stage
    case ConnectBroker => {Query}
    case CatchupMarketData => {Query}
    case VerifyRisk => {Query, Cancel}
    case Ready => {Query, Cancel, ReduceOnly}
  }

  function Permission(g: GateState, action: Action): PermissionResult {
    if g.mode == Recovering then
      if g.stage.None? then DENIED
      else PermissionResult(action in StageActions(g.stage.value), None, false, false)
    else
      ModePermission(g.mode, action)
  }

  function Allowed(g: GateState): set<Action> {
    set a: Action | Permission(g, a).allowed
  }

  /** Outside Recovering, a more severe mode never allows an action that a less severe one denies. */
  lemma SeverityShrinksPermissions(g: GateState, g': GateState)
    requires g.mode != Recovering && g'.mode != Recovering
    requires Priority(g.mode) <= Priority(g'.mode)
    ensures Allowed(g') <= Allowed(g)
  {
  }

  /** The recovery stages grant more and more, but never opening, sending or amending. */
  lemma StagesGrow(s: Stage, s': Stage)
    ensures StageIndex(s) <= StageIndex(s') ==> StageActions(s) <= StageActions(s')
    ensures StageActions(s) !! {Open, Send, Amend}
    ensures Query in StageActions(s)
  {
  }

  /** STAGE_ORDER. */
  function StageIndex(s: Stage): nat {
    match s
    case ConnectBroker => 0
    case CatchupMarketData => 1
    case VerifyRisk => 2
    case Ready => 3
  }

  /** The most severe mode, outside Recovering, in which an action is still possible. */
  function LastMode(action: Action): Mode {
    match action
    case Open | Send | Amend => Degraded
    case Cancel | ReduceOnly => SafeMode
    case Query => Halt
  }

  /** The first recovery stage at which an action is possible, if any is. */
  function FirstStage(action: Action): Option<Stage> {
    match action
    case Open | Send | Amend => None
    case Cancel => Some(VerifyRisk)
    case ReduceOnly => Some(Ready)
    case Query => Some(ConnectBroker)
  }

  /** Read by action instead of by mode, the two tables are thresholds. */
  predicate WithinThreshold(g: GateState, action: Action) {
    if g.mode != Recovering then Priority(g.mode) <= Priority(LastMode(action))
    else g.stage.Some? && FirstStage(action).Some? && StageIndex(g.stage.value) >= StageIndex(FirstStage(action).value)
  }

  class TradingGate {
    var mode: Mode
    var stage: Option<Stage>

    function State(): GateState
      reads this
    {
      GateState(mode, stage)
    }

    constructor ()
      ensures State() == GateState(Recovering, Some(ConnectBroker))
    {
      mode, stage := Recovering, Some(ConnectBroker);
    }

    method UpdateMode(newMode: Mode, newStage: Option<Stage>) returns (r: Result<(), GateError>)
      modifies this
      ensures r.Failure? <==> newMode == Recovering && newStage.None?
      ensures r.Failure? ==> State() == old(State())
      ensures r.Success? ==> State() == GateState(newMode, if newMode == Recovering then newStage else None)
    {
      if newMode == Recovering && newStage.None? {
        return Failure(StageRequired);
      }
      mode := newMode;
      if newMode != Recovering {
        stage := None;
      } else {
        stage := newStage;
      }
      r := Success(());
    }

    function CheckPermission(action: Action): (p: PermissionResult)
      reads this
      ensures p.allowed <==> WithinThreshold(State(), action)
      ensures p.warning.Some? <==> mode == SafeMode && action == Cancel
      ensures p.restricted <==> mode == Degraded && action == Open
      ensures p.localOnly <==> mode == SafeModeDisconnected && action == Query
      ensures p.warning.Some? || p.restricted || p.localOnly ==> p.allowed
    {
      Permission(State(), action)
    }
  }
}
