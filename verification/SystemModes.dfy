/** Modes, stages, reasons and the decision matrix of backend/src/degradation. */
module SystemModes {

  datatype Mode = Normal | Recovering | Degraded | SafeMode | SafeModeDisconnected | Halt

  datatype Stage = ConnectBroker | CatchupMarketData | VerifyRisk | Ready

  datatype Reason =
    | BrokerDisconnect | BrokerReconnected | BrokerReportMismatch
    | MdStale | MdQualityDegraded
    | RiskTimeout | RiskBreachHard
    | PositionTruthUnknown
    | DbWriteFail | DbBufferOverflow
    | AlertsChannelDown
    | ColdStart | RecoveryFailed | AllHealthy

  datatype Action = Open | Send | Amend | Cancel | ReduceOnly | Query

  /** MODE_PRIORITY: higher is more severe. */
  function Priority(m: Mode): nat {
    match m
    case Normal => 0
    case Recovering => 1
    case Degraded => 2
    case SafeMode => 3
    case SafeModeDisconnected => 4
    case Halt => 5
  }

  /** DECISION_MATRIX. */
  function Target(r: Reason): Mode {
    match r
    case BrokerDisconnect => SafeModeDisconnected
    case BrokerReconnected => Recovering
    case BrokerReportMismatch => Halt
    case MdStale => SafeMode
    case MdQualityDegraded => Degraded
    case RiskTimeout => SafeMode
    case RiskBreachHard => Halt
    case PositionTruthUnknown => Halt
    case DbWriteFail => Degraded
    case DbBufferOverflow => SafeMode
    case AlertsChannelDown => Degraded
    case ColdStart => Recovering
    case RecoveryFailed => Halt
    case AllHealthy => Normal
  }

  /** Escalate or stay; otherwise only down to Normal or Recovering. */
  predicate CanTransition(current: Mode, target: Mode) {
    Priority(target) >= Priority(current) || target == Normal || target == Recovering
  }
}
