/** Circuit breakers with hysteresis: backend/src/degradation/breakers.py, and what their events do to the mode. */
module Breakers {
  import opened Common
  import opened SystemModes
  import opened StateService

  datatype Level = Healthy | Unstable | Tripped

  datatype Kind = DegradedEvent | TripEvent | RecoveredEvent

  /** The reason codes of the four specialised breakers. */
  datatype Breaker = BrokerBreaker | MarketDataBreaker | RiskBreaker | DbBreaker
  {
    function TripReason(): Reason {
      match this
      case BrokerBreaker => BrokerDisconnect
      case MarketDataBreaker => MdStale
      case RiskBreaker => RiskTimeout
      case DbBreaker => DbWriteFail
    }

    function RecoveryReason(): Reason {
      if this == BrokerBreaker then BrokerReconnected else AllHealthy
    }

    /** Entering Unstable and tripping report the same reason code. */
    function ReasonOf(k: Kind): Reason {
      if k == RecoveredEvent then RecoveryReason() else TripReason()
    }
  }

  datatype Thresholds = Thresholds(count: int, seconds: real)

  datatype BreakerState = BreakerState(level: Level, failureCount: nat, firstFailure: Option<real>,
                                       lastSuccess: Option<real>)

  const InitialState := BreakerState(Healthy, 0, None, None)

  function RecordFailure(t: Thresholds, s: BreakerState, now: real): (BreakerState, Option<Kind>) {
    var first := if s.firstFailure.None? then now else s.firstFailure.value;
    var s' := s.(failureCount := s.failureCount + 1, firstFailure := Some(first));
    match s.level
    case Healthy => (s'.(level := Unstable), Some(DegradedEvent))
    case Unstable =>
      if s'.failureCount >= t.count || now - first >= t.seconds then (s'.(level := Tripped), Some(TripEvent))
      else (s', None)
    case Tripped => (s', None)
  }

  function RecordSuccess(s: BreakerState, now: real): (BreakerState, Option<Kind>) {
    (BreakerState(Healthy, 0, None, Some(now)), if s.level == Healthy then None else Some(RecoveredEvent))
  }

  class CircuitBreaker {
    const breaker: Breaker
    const thresholds: Thresholds
    var level: Level
    var failureCount: nat
    var firstFailureMono: Option<real>
    var lastSuccessMono: Option<real>

    function State(): BreakerState
      reads this
    {
      BreakerState(level, failureCount, firstFailureMono, lastSuccessMono)
    }

    constructor (breaker: Breaker, thresholds: Thresholds)
      ensures this.breaker == breaker && this.thresholds == thresholds
      ensures State() == InitialState
    {
      this.breaker, this.thresholds := breaker, thresholds;
      level, failureCount, firstFailureMono, lastSuccessMono := Healthy, 0, None, None;
    }

    method Failed(now: real) returns (event: Option<Kind>)
      modifies this
      ensures (State(), event) == RecordFailure(thresholds, old(State()), now)
    {
      var oldLevel := level;
      failureCount := failureCount + 1;
      if firstFailureMono.None? {
        firstFailureMono := Some(now);
      }
      if oldLevel == Healthy {
        level := Unstable;
        return Some(DegradedEvent);
      } else if oldLevel == Unstable {
        if CheckTripConditions(now) {
          level := Tripped;
          return Some(TripEvent);
        }
        return None;
      } else {
        return None;
      }
    }

    predicate CheckTripConditions(now: real)
      reads this
    {
      failureCount >= thresholds.count || (firstFailureMono.Some? && now - firstFailureMono.value >= thresholds.seconds)
    }

    method Succeeded(now: real) returns (event: Option<Kind>)
      modifies this
      ensures (State(), event) == RecordSuccess(old(State()), now)
    {
      var oldLevel := level;
      level := Healthy;
      failureCount := 0;
      firstFailureMono := None;
      lastSuccessMono := Some(now);
      event := if oldLevel != Healthy then Some(RecoveredEvent) else None;
    }
  }

  // --------------------------------------------------------------------------------------------
  // Runs
  // --------------------------------------------------------------------------------------------

  datatype Report = FailureAt(time: real) | SuccessAt(time: real)

  function Record(t: Thresholds, s: BreakerState, r: Report): (BreakerState, Option<Kind>) {
    match r
    case FailureAt(now) => RecordFailure(t, s, now)
    case SuccessAt(now) => RecordSuccess(s, now)
  }

  function StateAfter(t: Thresholds, reports: seq<Report>): BreakerState {
    if |reports| == 0 then InitialState
    else Record(t, StateAfter(t, reports[..|reports| - 1]), reports[|reports| - 1]).0
  }

  function EventsOf(t: Thresholds, reports: seq<Report>): seq<Kind> {
    if |reports| == 0 then []
    else
      var n := |reports| - 1;
      var event := Record(t, StateAfter(t, reports[..n]), reports[n]).1;
      EventsOf(t, reports[..n]) + if event.Some? then [event.value] else []
  }

  /** The times of the failures since the last success. */
  function FailureTimes(reports: seq<Report>): seq<real> {
    if |reports| == 0 then []
    else
      match reports[|reports| - 1]
      case FailureAt(now) => FailureTimes(reports[..|reports| - 1]) + [now]
      case SuccessAt(_) => []
  }

  function LastSuccess(reports: seq<Report>): Option<real> {
    if |reports| == 0 then None
    else
      match reports[|reports| - 1]
      case FailureAt(_) => LastSuccess(reports[..|reports| - 1])
      case SuccessAt(now) => Some(now)
  }

  predicate NonDecreasing(reports: seq<Report>) {
    forall i, j :: 0 <= i <= j < |reports| ==> reports[i].time <= reports[j].time
  }

  /** What hysteresis promises, as a function of the failures since the last success alone. */
  function LevelOf(t: Thresholds, times: seq<real>): Level {
    var n := |times|;
    if n == 0 then Healthy
    else if n == 1 then Unstable
    else if n >= t.count || times[n - 1] - times[0] >= t.seconds then Tripped
    else Unstable
  }

  /** With a clock that never runs backwards, the breaker's whole state is a closed form of those failures. */
  lemma {:induction false} LevelClosedForm(t: Thresholds, reports: seq<Report>)
    requires NonDecreasing(reports)
    ensures var s, times := StateAfter(t, reports), FailureTimes(reports);
            && s.level == LevelOf(t, times)
            && s.failureCount == |times|
            && s.lastSuccess == LastSuccess(reports)
            && s.firstFailure == (if |times| == 0 then None else Some(times[0]))
            && (|times| > 0 ==> times[|times| - 1] <= reports[|reports| - 1].time)
  {
    if |reports| > 0 {
      var n := |reports| - 1;
      LevelClosedForm(t, reports[..n]);
      if n > 0 {
        assert reports[n - 1].time <= reports[n].time;
      }
    }
  }

  /** Repetitions of degraded, an optional trip, recovered; the last repetition may still be open. */
  predicate Cycles(e: seq<Kind>) {
    || |e| == 0
    || (e[0] == DegradedEvent
        && (|| |e| == 1
            || (e[1] == RecoveredEvent && Cycles(e[2..]))
            || (e[1] == TripEvent && (|e| == 2 || (e[2] == RecoveredEvent && Cycles(e[3..]))))))
  }

  /** The level a sequence of events ends in. */
  function LevelAt(e: seq<Kind>): Level {
    if |e| == 0 then Healthy
    else match e[|e| - 1]
         case DegradedEvent => Unstable
         case TripEvent => Tripped
         case RecoveredEvent => Healthy
  }

  predicate MayFollow(l: Level, k: Kind) {
    match k
    case DegradedEvent => l == Healthy
    case TripEvent => l == Unstable
    case RecoveredEvent => l != Healthy
  }

  lemma {:induction false} CyclesExtend(e: seq<Kind>, k: Kind)
    requires Cycles(e) && MayFollow(LevelAt(e), k)
    ensures Cycles(e + [k])
  {
    var longer := e + [k];
    if |e| > 1 && e[1] == RecoveredEvent {
      CyclesExtend(e[2..], k);
      assert longer[2..] == e[2..] + [k];
    } else if |e| > 2 {
      CyclesExtend(e[3..], k);
      assert longer[3..] == e[3..] + [k];
    }
  }

  /** The events of any run, whatever the clock does, form such repetitions and end in the breaker's level. */
  lemma {:induction false} EventsFormCycles(t: Thresholds, reports: seq<Report>)
    ensures Cycles(EventsOf(t, reports))
    ensures LevelAt(EventsOf(t, reports)) == StateAfter(t, reports).level
  {
    if |reports| > 0 {
      var n := |reports| - 1;
      EventsFormCycles(t, reports[..n]);
      var event := Record(t, StateAfter(t, reports[..n]), reports[n]).1;
      if event.Some? {
        CyclesExtend(EventsOf(t, reports[..n]), event.value);
      } else {
        assert EventsOf(t, reports[..n]) + [] == EventsOf(t, reports[..n]);
      }
    }
  }

  // --------------------------------------------------------------------------------------------
  // Breaker events and the system mode
  // --------------------------------------------------------------------------------------------

  /** What a breaker's failures do to a system that was normal: the transition that is recorded. */
  function TripTransition(b: Breaker): Transition {
    match b
    case BrokerBreaker => Transition(Normal, SafeModeDisconnected, BrokerDisconnect, None)
    case MarketDataBreaker => Transition(Normal, SafeMode, MdStale, None)
    case RiskBreaker => Transition(Normal, SafeMode, RiskTimeout, None)
    case DbBreaker => Transition(Normal, Degraded, DbWriteFail, None)
  }

  /** A breaker that has only become unstable is meant to be a warning without effect on the mode. Its event carries
      the trip reason, so the mode stays where it is exactly when an override is in force or the mode is already at
      least as severe as the trip's target. */
  lemma UnstableEventKeepsModeIff(b: Breaker, t: Thresholds, now: real, s: Service)
    ensures var event := RecordFailure(t, InitialState, now).1;
            && event == Some(DegradedEvent)
            && (HandleEvent(s, b.ReasonOf(event.value), now).mode == s.mode
                <==> Live(s.override, now) || Priority(s.mode) >= Priority(TripTransition(b).to))
            && (s.mode == Normal && !Live(s.override, now) ==>
                  HandleEvent(s, b.ReasonOf(event.value), now).history == s.history + [TripTransition(b)])
  {
  }

  /** Recovery of a breaker ends every mode, Halt included, unless an override is in force: the broker's starts a staged
      recovery, any other reports that all is healthy. */
  lemma RecoveredEventEndsAnyMode(b: Breaker, s: Service, now: real)
    ensures HandleEvent(s, b.ReasonOf(RecoveredEvent), now).mode
         == if Live(s.override, now) then s.mode else if b == BrokerBreaker then Recovering else Normal
    ensures b.ReasonOf(RecoveredEvent) == if b == BrokerBreaker then BrokerReconnected else AllHealthy
  {
  }
}
