/** Which signals a backtest fills and at what price, and what it shows to the strategy and in its records. */
module BacktestDecisions {
  import opened Common
  import opened FactorDicts
  import opened Backtest
  import opened BacktestTiming

  // --------------------------------------------------------------------------------------------
  // Signals and fills
  // --------------------------------------------------------------------------------------------

  /** What the strategy emits at bar `k` of a run. */
  function SignalsAt(config: Config, strategy: Strategy, bars: seq<Bar>, k: nat): seq<Signal>
    requires k < |bars|
  {
    strategy(RunBars(config, strategy, bars[..k + 1]).history)
  }

  /** The signal that falls due at bar `k`: the first one of the last bar that emitted any, unless a bar of the backtest
      phase has come since. */
  function Due(config: Config, strategy: Strategy, bars: seq<Bar>, k: nat): Option<Signal>
    requires k <= |bars|
  {
    if k == 0 then None
    else
      var signals := SignalsAt(config, strategy, bars, k - 1);
      if |signals| > 0 then Some(signals[0])
      else if bars[k - 1].timestamp >= config.startTime then None
      else Due(config, strategy, bars, k - 1)
  }

  /** What the portfolio asks for: the cash for a purchase at the open with its commission, the shares for a sale. */
  predicate Affordable(config: Config, h: Holding, signal: Signal, open: real) {
    var q := signal.quantity as real;
    if signal.action == Buy then h.cash >= open * q + config.commissionPerShare * q else h.qty >= signal.quantity
  }

  /** The trade fills the signal at the bar's open, worsened by the configured basis points. */
  predicate FillsSignal(config: Config, signal: Signal, bar: Bar, t: Trade) {
    && t.side == signal.action && t.quantity == signal.quantity && t.signalTimestamp == signal.timestamp
    && t.timestamp == bar.timestamp && t.grossPrice == bar.open
    && 10000.0 * (if t.side == Buy then t.FillPrice() - bar.open else bar.open - t.FillPrice())
       == bar.open * config.slippageBps as real
    && t.commission == config.commissionPerShare * signal.quantity as real
    && t.entryFactors == signal.factorScores
    && t.exitFactors == (if signal.action == Sell then signal.factorScores else [])
  }

  /** What a trade does to cash and shares. */
  predicate Moves(h: Holding, h': Holding, t: Trade) {
    var paid := t.FillPrice() * t.quantity as real;
    if t.side == Buy then h'.cash == h.cash - paid - t.commission && h'.qty == h.qty + t.quantity
    else h'.cash == h.cash + paid - t.commission && h'.qty == h.qty - t.quantity && h'.avgCost == h.avgCost
  }

  lemma BasisPoints(config: Config, price: real)
    ensures 10000.0 * Slippage(config, price) == price * config.slippageBps as real
  {
  }

  lemma FillsWhenAffordable(config: Config, s: State, signal: Signal, bar: Bar)
    ensures var t := TradeAt(config, s, signal, bar);
            && (t.Some? <==> Affordable(config, s.holding, signal, bar.open))
            && (t.Some? ==> FillsSignal(config, signal, bar, t.value)
                            && Moves(s.holding, ApplyTrade(s, t.value).holding, t.value))
  {
    hide Slippage, SellPnl, Attribution.TradeAttribution, WeightedAverage, WeighFactors, TrackSell;
    BasisPoints(config, bar.open);
  }

  /** Trying the pending signal. */
  lemma ExecutionFillsIff(config: Config, s: State, bar: Bar)
    ensures var s' := ExecutePending(config, s, bar);
            var tried := s.pendingSignal.Some? && bar.timestamp >= config.startTime;
            && s'.pendingSignal == (if bar.timestamp >= config.startTime then None else s.pendingSignal)
            && s'.history == s.history && s'.firstSignalBar == s.firstSignalBar
            && if tried && Affordable(config, s.holding, s.pendingSignal.value, bar.open) then
                 && |s'.trades| == |s.trades| + 1 && s.trades == s'.trades[..|s.trades|]
                 && FillsSignal(config, s.pendingSignal.value, bar, s'.trades[|s.trades|])
                 && Moves(s.holding, s'.holding, s'.trades[|s.trades|])
               else
                 s'.trades == s.trades && s'.holding == s.holding && s'.entry == s.entry
  {
    hide TradeAt, Affordable, FillsSignal, Moves, Complete;
    if s.pendingSignal.Some? {
      FillsWhenAffordable(config, s, s.pendingSignal.value, bar);
    }
  }

  lemma ConsultationShows(strategy: Strategy, s: State, bar: Bar)
    ensures var s' := ConsultStrategy(strategy, s, bar);
            var signals := strategy(s'.history);
            && s'.trades == s.trades && s'.holding == s.holding && s'.entry == s.entry && s'.traces == s.traces
            && s'.equityCurve == s.equityCurve
            && s'.history == s.history + [ObservationOf(s, bar)]
            && s'.pendingSignal == (if |signals| > 0 then Some(signals[0]) else s.pendingSignal)
  {
  }

  /** The pending signal is always the one that falls due next. */
  lemma {:induction false} PendingIsDue(config: Config, strategy: Strategy, bars: seq<Bar>, k: nat)
    requires k <= |bars|
    ensures RunBars(config, strategy, bars[..k]).pendingSignal == Due(config, strategy, bars, k)
  {
    hide ExecutePending, ConsultStrategy;
    if k > 0 {
      PendingIsDue(config, strategy, bars, k - 1);
      assert bars[..k][..k - 1] == bars[..k - 1];
      var s := RunBars(config, strategy, bars[..k - 1]);
      ExecutionFillsIff(config, s, bars[k - 1]);
      ConsultationShows(strategy, ExecutePending(config, s, bars[k - 1]), bars[k - 1]);
    }
  }

  /** At every bar of every run: a trade happens if and only if a signal is due, the bar is of the backtest phase and
      the portfolio can afford the signal; the trade is then that signal's, at the open and the configured costs, and
      nothing else ever moves the portfolio. */
  lemma SignalFillsIff(config: Config, strategy: Strategy, bars: seq<Bar>, j: nat)
    requires j < |bars|
    ensures var before, after := RunBars(config, strategy, bars[..j]), RunBars(config, strategy, bars[..j + 1]);
            var due, bar, n := Due(config, strategy, bars, j), bars[j], |before.trades|;
            if due.Some? && bar.timestamp >= config.startTime && Affordable(config, before.holding, due.value, bar.open)
            then
              && |after.trades| == n + 1 && after.trades[..n] == before.trades
              && FillsSignal(config, due.value, bar, after.trades[n])
              && Moves(before.holding, after.holding, after.trades[n])
            else
              after.trades == before.trades && after.holding == before.holding
  {
    hide ExecutePending, ConsultStrategy, Affordable, FillsSignal, Moves, Due;
    PendingIsDue(config, strategy, bars, j);
    assert bars[..j + 1][..j] == bars[..j];
    var s := RunBars(config, strategy, bars[..j]);
    ExecutionFillsIff(config, s, bars[j]);
    ConsultationShows(strategy, ExecutePending(config, s, bars[j]), bars[j]);
  }

  /** `r` is the average of `m` at `a` and `n` at `b`. */
  predicate IsAverage(r: real, a: real, m: nat, b: real, n: nat) {
    r * (m + n) as real == a * m as real + b * n as real
  }

  lemma AverageTimesWeight(a: real, m: nat, b: real, n: nat)
    requires m + n > 0
    ensures IsAverage(WeightedAverage(a, m, b, n), a, m, b, n)
  {
  }

  lemma LastScore(scores: Dict, name: string)
    requires |scores| > 0
    ensures var n := |scores| - 1;
            && UniqueNames(scores[..n]) && Get(scores[..n], scores[n].name) == 0.0 && !Has(scores[..n], scores[n].name)
            && Get(scores, name) == (if scores[n].name == name then scores[n].value else Get(scores[..n], name))
            && (Has(scores, name) <==> Has(scores[..n], name) || scores[n].name == name)
  {
    hide Get, Has;
    PrefixOf(scores);
    AppendEntry(scores[..|scores| - 1], scores[|scores| - 1], name);
    AbsentIsZero(scores[..|scores| - 1], scores[|scores| - 1].name);
  }

  /** Scaling in averages the scores the new lot has, weighted by quantity, a name new to the position counting as zero
      so far; the scores it lacks stay as they were. */
  lemma {:induction false} ScoresAreAveraged(factors: Dict, scores: Dict, oldQty: nat, quantity: nat, name: string)
    requires oldQty + quantity > 0
    ensures var r := WeighFactors(factors, scores, oldQty, quantity);
            && (Has(r, name) <==> Has(factors, name) || Has(scores, name))
            && if Has(scores, name)
               then IsAverage(Get(r, name), Get(factors, name), oldQty, Get(scores, name), quantity)
               else Get(r, name) == Get(factors, name)
  {
    if |scores| == 0 {
      EmptyDict(name);
    } else {
      hide Get, Has, Put, WeightedAverage, IsAverage;
      var n := |scores| - 1;
      var e, before := scores[n], WeighFactors(factors, scores[..n], oldQty, quantity);
      LastScore(scores, name);
      ScoresAreAveraged(factors, scores[..n], oldQty, quantity, name);
      var average := WeightedAverage(Get(before, e.name), oldQty, e.value, quantity);
      PutEffect(before, e.name, average, name);
      if e.name == name {
        AverageTimesWeight(Get(before, name), oldQty, e.value, quantity);
      }
    }
  }

  // --------------------------------------------------------------------------------------------
  // What is shown and recorded
  // --------------------------------------------------------------------------------------------

  /** The market at a bar's close, and the shares held after whatever was filled at its open. */
  predicate Shows(o: Observation, bar: Bar, h: Holding) {
    && o.price == bar.close && o.volume == bar.volume && o.timestamp == bar.timestamp
    && o.position == if h.qty > 0 then Some(HeldPosition(h.qty, h.avgCost)) else None
  }

  /** The strategy is shown every bar once, in order, with the portfolio as it stands after that bar's fill. */
  lemma {:induction false} StrategySees(config: Config, strategy: Strategy, bars: seq<Bar>)
    ensures var history := RunBars(config, strategy, bars).history;
            && |history| == |bars|
            && forall k :: 0 <= k < |bars| ==>
                 Shows(history[k], bars[k], RunBars(config, strategy, bars[..k + 1]).holding)
  {
    hide ExecutePending, ConsultStrategy, Shows;
    if |bars| > 0 {
      var n := |bars| - 1;
      var before, s := bars[..n], RunBars(config, strategy, bars[..n]);
      StrategySees(config, strategy, before);
      ExecutionFillsIff(config, s, bars[n]);
      var executed := ExecutePending(config, s, bars[n]);
      ConsultationShows(strategy, executed, bars[n]);
      assert Shows(ObservationOf(executed, bars[n]), bars[n], executed.holding) by { Observed(executed, bars[n]); }
      assert bars[..n + 1] == bars;
      forall k | 0 <= k < n
        ensures Shows(s.history[k], bars[k], RunBars(config, strategy, bars[..k + 1]).holding)
      {
        assert before[..k + 1] == bars[..k + 1] && before[k] == bars[k];
      }
    }
  }

  lemma Observed(s: State, bar: Bar)
    ensures Shows(ObservationOf(s, bar), bar, s.holding)
  {
  }

  /** The equity curve gets the worth of the portfolio at the close of each bar of the backtest phase, after its
      fill. */
  lemma EquityRecorded(config: Config, strategy: Strategy, bars: seq<Bar>)
    requires |bars| > 0
    ensures var n := |bars| - 1;
            var before, after := RunBars(config, strategy, bars[..n]), RunBars(config, strategy, bars);
            if bars[n].timestamp < config.startTime then after.equityCurve == before.equityCurve
            else after.equityCurve == before.equityCurve + [(bars[n].timestamp, Worth(after.holding, bars[n].close))]
  {
    hide ExecutePending, ConsultStrategy, Equity, Worth;
    var n := |bars| - 1;
    var s := RunBars(config, strategy, bars[..n]);
    var executed := ExecutePending(config, s, bars[n]);
    PendingKeepsEquity(config, s, bars[n]);
    ConsultationShows(strategy, executed, bars[n]);
    EquityIs(executed.holding, bars[n].close);
  }

  function Worth(h: Holding, price: real): real {
    h.cash + price * h.qty as real
  }

  lemma EquityIs(h: Holding, price: real)
    ensures Equity(h, price) == Worth(h, price)
  {
  }

  /** The trace shows the portfolio and the signal of bar `i`. */
  predicate Snapshot(config: Config, strategy: Strategy, bars: seq<Bar>, trace: Trace, i: nat) {
    && i < |bars| && trace.signalBar == bars[i]
    && var h, signals := RunBars(config, strategy, bars[..i + 1]).holding, SignalsAt(config, strategy, bars, i);
    && |signals| > 0
    && trace.direction == signals[0].action && trace.quantity == signals[0].quantity
    && trace.reason == (if signals[0].reason == "" then None else Some(signals[0].reason))
    && trace.cash == h.cash && trace.positionQty == h.qty
    && trace.positionAvgCost == (if h.qty > 0 then Some(h.avgCost) else None)
    && trace.equity == Worth(h, bars[i].close)
  }

  predicate Snapshots(config: Config, strategy: Strategy, bars: seq<Bar>, trace: Trace) {
    exists i :: 0 <= i < |bars| && Snapshot(config, strategy, bars, trace, i)
  }

  lemma SnapshotStays(config: Config, strategy: Strategy, bars: seq<Bar>, trace: Trace, later: Trace)
    requires |bars| > 0 && Snapshots(config, strategy, bars[..|bars| - 1], trace)
    requires later.(fill := None) == trace.(fill := None)
    ensures Snapshots(config, strategy, bars, later)
  {
    hide RunBars;
    var before := bars[..|bars| - 1];
    var i :| 0 <= i < |before| && Snapshot(config, strategy, before, trace, i);
    assert before[..i + 1] == bars[..i + 1];
    assert Snapshot(config, strategy, bars, later, i);
  }

  lemma ExecutionCompletes(config: Config, s: State, bar: Bar)
    ensures var s' := ExecutePending(config, s, bar);
            && (forall k :: k in s'.pendingTraces ==> k in s.pendingTraces && s'.pendingTraces[k] == s.pendingTraces[k])
            && |s'.traces| <= |s.traces| + 1
            && (forall t :: 0 <= t < |s.traces| && t < |s'.traces| ==> s'.traces[t] == s.traces[t])
            && (|s'.traces| > |s.traces| ==>
                  exists k :: k in s.pendingTraces
                              && s'.traces[|s.traces|].(fill := None) == s.pendingTraces[k].(fill := None))
  {
    hide TradeAt, ApplyBuy, ApplySell, TrackBuy, TrackSell;
    var s' := ExecutePending(config, s, bar);
    if |s'.traces| > |s.traces| {
      var k := s.pendingSignal.value.timestamp;
      assert s'.traces[|s.traces|].(fill := None) == s.pendingTraces[k].(fill := None);
    }
  }

  predicate AllSnapshots(config: Config, strategy: Strategy, bars: seq<Bar>, s: State) {
    && (forall t :: 0 <= t < |s.traces| ==> Snapshots(config, strategy, bars, s.traces[t]))
    && (forall k :: k in s.pendingTraces ==> Snapshots(config, strategy, bars, s.pendingTraces[k]))
  }

  /** Every trace of a run shows its signal, and the portfolio and equity at the signal's own bar. */
  lemma {:induction false} TracesShowThePortfolio(config: Config, strategy: Strategy, bars: seq<Bar>)
    ensures AllSnapshots(config, strategy, bars, RunBars(config, strategy, bars))
  {
    if |bars| > 0 {
      TracesShowThePortfolio(config, strategy, bars[..|bars| - 1]);
      StepKeepsSnapshots(config, strategy, bars);
    }
  }

  lemma StepKeepsSnapshots(config: Config, strategy: Strategy, bars: seq<Bar>)
    requires |bars| > 0
    requires AllSnapshots(config, strategy, bars[..|bars| - 1], RunBars(config, strategy, bars[..|bars| - 1]))
    ensures AllSnapshots(config, strategy, bars, RunBars(config, strategy, bars))
  {
    hide Snapshots, ExecutePending, ConsultStrategy;
    var n := |bars| - 1;
    var s, s' := RunBars(config, strategy, bars[..n]), RunBars(config, strategy, bars);
    var executed := ExecutePending(config, s, bars[n]);
    ConsultationShows(strategy, executed, bars[n]);
    assert s'.traces == executed.traces;
    hide RunBars;
    CompletedStay(config, strategy, bars, s);
    ExecutionCompletes(config, s, bars[n]);
    forall k | k in s'.pendingTraces
      ensures Snapshots(config, strategy, bars, s'.pendingTraces[k])
    {
      NewTrace(config, strategy, bars, k);
      if k in executed.pendingTraces && s'.pendingTraces[k] == executed.pendingTraces[k] {
        SnapshotStays(config, strategy, bars, s.pendingTraces[k], s'.pendingTraces[k]);
      }
    }
  }

  lemma CompletedStay(config: Config, strategy: Strategy, bars: seq<Bar>, s: State)
    requires |bars| > 0 && AllSnapshots(config, strategy, bars[..|bars| - 1], s)
    ensures var traces := ExecutePending(config, s, bars[|bars| - 1]).traces;
            forall t :: 0 <= t < |traces| ==> Snapshots(config, strategy, bars, traces[t])
  {
    hide Snapshots, ExecutePending;
    var traces := ExecutePending(config, s, bars[|bars| - 1]).traces;
    ExecutionCompletes(config, s, bars[|bars| - 1]);
    forall t | 0 <= t < |traces|
      ensures Snapshots(config, strategy, bars, traces[t])
    {
      if t < |s.traces| {
        SnapshotStays(config, strategy, bars, s.traces[t], traces[t]);
      } else {
        var k :| k in s.pendingTraces && traces[t].(fill := None) == s.pendingTraces[k].(fill := None);
        SnapshotStays(config, strategy, bars, s.pendingTraces[k], traces[t]);
      }
    }
  }

  lemma NewTrace(config: Config, strategy: Strategy, bars: seq<Bar>, k: int)
    requires |bars| > 0 && k in RunBars(config, strategy, bars).pendingTraces
    ensures var n := |bars| - 1;
            var executed := ExecutePending(config, RunBars(config, strategy, bars[..n]), bars[n]);
            var trace := RunBars(config, strategy, bars).pendingTraces[k];
            || (k in executed.pendingTraces && trace == executed.pendingTraces[k])
            || Snapshots(config, strategy, bars, trace)
  {
    hide ExecutePending;
    var n := |bars| - 1;
    var s' := RunBars(config, strategy, bars);
    var executed := ExecutePending(config, RunBars(config, strategy, bars[..n]), bars[n]);
    assert bars[..n + 1] == bars;
    if !(k in executed.pendingTraces && s'.pendingTraces[k] == executed.pendingTraces[k]) {
      assert Snapshot(config, strategy, bars, s'.pendingTraces[k], n);
    }
  }

  predicate Silent(config: Config, strategy: Strategy, bars: seq<Bar>, n: nat)
    requires n <= |bars|
  {
    forall k :: 0 <= k < n ==> SignalsAt(config, strategy, bars, k) == []
  }

  /** The first signal bar of a run is the first bar at which the strategy emitted anything. */
  lemma {:induction false} FirstSignalIsFirst(config: Config, strategy: Strategy, bars: seq<Bar>, n: nat)
    requires n <= |bars|
    ensures var first := RunBars(config, strategy, bars[..n]).firstSignalBar;
            && (first.None? <==> Silent(config, strategy, bars, n))
            && (first.Some? ==> exists k :: 0 <= k < n && first.value == bars[k].timestamp
                                            && SignalsAt(config, strategy, bars, k) != []
                                            && Silent(config, strategy, bars, k))
  {
    if n == 0 {
      assert bars[..0] == [];
    } else {
      hide RunBars, SignalsAt;
      FirstSignalIsFirst(config, strategy, bars, n - 1);
      assert bars[..n][..n - 1] == bars[..n - 1];
      FirstSignalStep(config, strategy, bars[..n]);
      assert SignalsAt(config, strategy, bars[..n], n - 1) == SignalsAt(config, strategy, bars, n - 1) by {
        SignalsOfPrefix(config, strategy, bars, n);
      }
    }
  }

  lemma SignalsOfPrefix(config: Config, strategy: Strategy, bars: seq<Bar>, n: nat)
    requires 0 < n <= |bars|
    ensures SignalsAt(config, strategy, bars[..n], n - 1) == SignalsAt(config, strategy, bars, n - 1)
  {
    hide RunBars;
    assert bars[..n][..n] == bars[..n];
  }

  lemma FirstSignalStep(config: Config, strategy: Strategy, bars: seq<Bar>)
    requires |bars| > 0
    ensures var n := |bars| - 1;
            var first := RunBars(config, strategy, bars[..n]).firstSignalBar;
            RunBars(config, strategy, bars).firstSignalBar
            == if first.None? && SignalsAt(config, strategy, bars, n) != [] then Some(bars[n].timestamp) else first
  {
    hide ExecutePending;
    var n := |bars| - 1;
    ExecutionFillsIff(config, RunBars(config, strategy, bars[..n]), bars[n]);
    assert bars[..n + 1] == bars;
  }

  // --------------------------------------------------------------------------------------------
  // Warm-up
  // --------------------------------------------------------------------------------------------

  /** On data in order of time, `m` bars of which precede the start: a backtest runs exactly when these are enough, and
      then on the data from the last `warmupRequired` of them on, with nothing left out. */
  lemma WarmupIsNewest(config: Config, strategy: Strategy, allBars: seq<Bar>, m: nat)
    requires m <= |allBars|
    requires forall i :: 0 <= i < m ==> allBars[i].timestamp < config.startTime
    requires forall i :: m <= i < |allBars| ==> allBars[i].timestamp >= config.startTime
    ensures RunBacktest(config, strategy, allBars).Success? <==> m >= config.warmupRequired
    ensures m < config.warmupRequired ==>
              RunBacktest(config, strategy, allBars) == Failure(InsufficientWarmup(config.warmupRequired, m))
    ensures m >= config.warmupRequired ==>
              && |Phase(config, allBars, false)| == m
              && BarsToProcess(config, allBars) == allBars[m - config.warmupRequired..]
  {
    hide RunBars, ResultOf, Phase;
    PhasesSplit(config, allBars, m);
    if m >= config.warmupRequired {
      var k := m - config.warmupRequired;
      assert allBars[..m][k..] + allBars[m..] == allBars[k..];
    }
  }

  lemma PhasesSplit(config: Config, allBars: seq<Bar>, m: nat)
    requires m <= |allBars|
    requires forall i :: 0 <= i < m ==> allBars[i].timestamp < config.startTime
    requires forall i :: m <= i < |allBars| ==> allBars[i].timestamp >= config.startTime
    ensures Phase(config, allBars, false) == allBars[..m] && Phase(config, allBars, true) == allBars[m..]
  {
    hide Phase;
    var before, after := allBars[..m], allBars[m..];
    assert allBars == before + after;
    OnePhase(config, before, false);
    OnePhase(config, after, true);
    PhaseConcat(config, before, after, false);
    PhaseConcat(config, before, after, true);
  }
}
