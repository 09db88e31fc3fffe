/**
  What a backtest computes: the data of backend/src/backtest and, as functions, the effect of each bar.

  One symbol is traded, so the table of entry positions has at most one row. A timestamp is a number, and the backtest
  phase begins at `startTime`. A strategy is any function from everything it has been shown to the signals it emits.
 */
module Backtest {
  import opened Common
  import opened FactorDicts
  import opened Attribution

  datatype Bar = Bar(timestamp: int, open: real, high: real, low: real, close: real, volume: int)

  datatype Signal = Signal(action: Side, quantity: nat, timestamp: int, reason: string, factorScores: Dict)

  datatype HeldPosition = HeldPosition(quantity: nat, avgCost: real)

  /** What a strategy is shown at a bar: market data at the close, and the portfolio's position. */
  datatype Observation = Observation(price: real, volume: int, timestamp: int, position: Option<HeldPosition>)

  type Strategy = seq<Observation> -> seq<Signal>

  datatype Config = Config(startTime: int, initialCapital: real, slippageBps: int, commissionPerShare: real,
                           factorWeights: Option<Dict>, warmupRequired: nat)

  // --------------------------------------------------------------------------------------------
  // Fills and the portfolio
  // --------------------------------------------------------------------------------------------

  datatype Trade = Trade(timestamp: int, side: Side, quantity: nat, grossPrice: real, slippage: real, commission: real,
                         signalTimestamp: int, entryFactors: Dict, exitFactors: Dict, attribution: Dict) {
    function FillPrice(): real {
      if side == Buy then grossPrice + slippage else grossPrice - slippage
    }
  }

  function Slippage(config: Config, price: real): real {
    price * (config.slippageBps as real / 10000.0)
  }

  function Commission(config: Config, quantity: nat): real {
    config.commissionPerShare * quantity as real
  }

  function Execute(config: Config, signal: Signal, fillBar: Bar): Trade {
    Trade(fillBar.timestamp, signal.action, signal.quantity, fillBar.open, Slippage(config, fillBar.open),
          Commission(config, signal.quantity), signal.timestamp, signal.factorScores, [], [])
  }

  datatype Holding = Holding(cash: real, qty: nat, avgCost: real)

  function Value(price: real, quantity: int): real {
    price * quantity as real
  }

  /** The average price of `m` at `a` and `n` at `b`. */
  function WeightedAverage(a: real, m: int, b: real, n: int): real
    requires m + n > 0
  {
    (Value(a, m) + Value(b, n)) / (m + n) as real
  }

  function Equity(h: Holding, price: real): real {
    h.cash + Value(price, h.qty)
  }

  predicate CanBuy(h: Holding, price: real, quantity: nat, commission: real) {
    h.cash >= Value(price, quantity) + commission
  }

  predicate CanSell(h: Holding, quantity: nat) {
    h.qty >= quantity
  }

  function ApplyBuy(h: Holding, t: Trade): Holding {
    Holding(h.cash - (Value(t.FillPrice(), t.quantity) + t.commission),
            h.qty + t.quantity,
            if h.qty == 0 then t.FillPrice() else WeightedAverage(h.avgCost, h.qty, t.FillPrice(), t.quantity))
  }

  function ApplySell(h: Holding, t: Trade): Holding
    requires CanSell(h, t.quantity)
  {
    Holding(h.cash + (Value(t.FillPrice(), t.quantity) - t.commission), h.qty - t.quantity, h.avgCost)
  }

  // --------------------------------------------------------------------------------------------
  // The entry ledger that attribution is computed from
  // --------------------------------------------------------------------------------------------

  datatype EntryPosition = EntryPosition(totalQty: int, weightedAvgCost: real, weightedFactors: Dict,
                                         totalCommission: real)

  const NoEntry := EntryPosition(0, 0.0, [], 0.0)

  /** Averages the scores of a new lot of `quantity` into those of `oldQty` held, over the factors the lot has. */
  function WeighFactors(factors: Dict, scores: seq<Entry>, oldQty: int, quantity: nat): Dict {
    if |scores| == 0 then factors
    else
      var r, e := WeighFactors(factors, scores[..|scores| - 1], oldQty, quantity), scores[|scores| - 1];
      if oldQty + quantity > 0 then Put(r, e.name, WeightedAverage(Get(r, e.name), oldQty, e.value, quantity)) else r
  }

  function TrackBuy(entry: Option<EntryPosition>, t: Trade): EntryPosition {
    var pos := if entry.Some? then entry.value else NoEntry;
    var newQty := pos.totalQty + t.quantity;
    EntryPosition(newQty,
                  if newQty > 0 then WeightedAverage(pos.weightedAvgCost, pos.totalQty, t.FillPrice(), t.quantity)
                  else pos.weightedAvgCost,
                  WeighFactors(pos.weightedFactors, t.entryFactors, pos.totalQty, t.quantity),
                  pos.totalCommission + t.commission)
  }

  function Prorata(amount: real, quantity: nat, total: int): real {
    if total > 0 then amount * quantity as real / total as real else 0.0
  }

  /** The profit of a sale against the average entry, after both commissions. */
  function SellPnl(pos: EntryPosition, t: Trade): real {
    Value(t.FillPrice() - pos.weightedAvgCost, t.quantity) - t.commission
    - Prorata(pos.totalCommission, t.quantity, pos.totalQty)
  }

  function TrackSell(pos: EntryPosition, t: Trade): Option<EntryPosition> {
    if pos.totalQty - t.quantity <= 0 then None
    else Some(pos.(totalQty := pos.totalQty - t.quantity,
                   totalCommission := pos.totalCommission - Prorata(pos.totalCommission, t.quantity, pos.totalQty)))
  }

  // --------------------------------------------------------------------------------------------
  // Traces
  // --------------------------------------------------------------------------------------------

  datatype Fill = Fill(bar: Bar, quantity: nat, price: real, expectedPrice: real, slippage: Option<real>,
                       commission: real)

  datatype Trace = Trace(signalBar: Bar, direction: Side, quantity: nat, reason: Option<string>, cash: real,
                         positionQty: nat, positionAvgCost: Option<real>, equity: real, fill: Option<Fill>)

  function CreatePending(signal: Signal, bar: Bar, h: Holding): Trace {
    Trace(bar, signal.action, signal.quantity, if signal.reason == "" then None else Some(signal.reason),
          h.cash, h.qty, if h.qty > 0 then Some(h.avgCost) else None, Equity(h, bar.close), None)
  }

  function Complete(pending: Trace, bar: Bar, t: Trade): Trace {
    pending.(fill := Some(Fill(bar, t.quantity, t.FillPrice(), bar.open,
                               if bar.open != 0.0 then Some(t.FillPrice() - bar.open) else None, t.commission)))
  }

  // --------------------------------------------------------------------------------------------
  // The event loop
  // --------------------------------------------------------------------------------------------

  datatype State = State(holding: Holding, entry: Option<EntryPosition>, pendingSignal: Option<Signal>,
                         pendingTraces: map<int, Trace>, traces: seq<Trace>, trades: seq<Trade>,
                         equityCurve: seq<(int, real)>, firstSignalBar: Option<int>, history: seq<Observation>)

  function Start(config: Config): State {
    State(Holding(config.initialCapital, 0, 0.0), None, None, map[], [], [], [], None, [])
  }

  predicate InBacktest(config: Config, bar: Bar) {
    bar.timestamp >= config.startTime
  }

  /** The trade that a pending signal becomes at a bar's open, when the portfolio allows it. */
  function TradeAt(config: Config, s: State, signal: Signal, bar: Bar): (t: Option<Trade>)
    ensures t.Some? ==>
              t.value.side == signal.action && (signal.action == Sell ==> CanSell(s.holding, t.value.quantity))
  {
    match signal.action
    case Buy =>
      if CanBuy(s.holding, bar.open, signal.quantity, Commission(config, signal.quantity))
      then Some(Execute(config, signal, bar)) else None
    case Sell =>
      if !CanSell(s.holding, signal.quantity) then None
      else
        var t := Execute(config, signal, bar).(exitFactors := signal.factorScores);
        if s.entry.None? then Some(t)
        else Some(t.(attribution := TradeAttribution(SellPnl(s.entry.value, t), s.entry.value.weightedFactors,
                                                     config.factorWeights)))
  }

  function ApplyTrade(s: State, t: Trade): State
    requires t.side == Sell ==> CanSell(s.holding, t.quantity)
  {
    s.(holding := if t.side == Buy then ApplyBuy(s.holding, t) else ApplySell(s.holding, t),
       entry := if t.side == Buy then Some(TrackBuy(s.entry, t))
                else if s.entry.Some? then TrackSell(s.entry.value, t) else None,
       trades := s.trades + [t])
  }

  function CompleteTrace(s: State, signal: Signal, bar: Bar, t: Trade): State {
    if signal.timestamp !in s.pendingTraces then s
    else s.(traces := s.traces + [Complete(s.pendingTraces[signal.timestamp], bar, t)],
            pendingTraces := s.pendingTraces - {signal.timestamp})
  }

  /** A pending signal waits through warm-up bars and is tried, once, at the first bar of the backtest phase. */
  function ExecutePending(config: Config, s: State, bar: Bar): State {
    if s.pendingSignal.None? || !InBacktest(config, bar) then s
    else
      var signal := s.pendingSignal.value;
      var t := TradeAt(config, s, signal, bar);
      (if t.None? then s else CompleteTrace(ApplyTrade(s, t.value), signal, bar, t.value)).(pendingSignal := None)
  }

  function ObservationOf(s: State, bar: Bar): Observation {
    Observation(bar.close, bar.volume, bar.timestamp,
                if s.holding.qty > 0 then Some(HeldPosition(s.holding.qty, s.holding.avgCost)) else None)
  }

  /** The strategy sees the bar's close; the first of its signals becomes the pending one. */
  function ConsultStrategy(strategy: Strategy, s: State, bar: Bar): State {
    var history := s.history + [ObservationOf(s, bar)];
    var signals := strategy(history);
    if |signals| == 0 then s.(history := history)
    else
      s.(history := history, pendingSignal := Some(signals[0]),
         firstSignalBar := if s.firstSignalBar.None? then Some(bar.timestamp) else s.firstSignalBar,
         pendingTraces := s.pendingTraces[signals[0].timestamp := CreatePending(signals[0], bar, s.holding)])
  }

  function RecordEquity(config: Config, s: State, bar: Bar): State {
    if InBacktest(config, bar)
    then s.(equityCurve := s.equityCurve + [(bar.timestamp, Equity(s.holding, bar.close))]) else s
  }

  function Step(config: Config, strategy: Strategy, s: State, bar: Bar): State {
    RecordEquity(config, ConsultStrategy(strategy, ExecutePending(config, s, bar), bar), bar)
  }

  function RunBars(config: Config, strategy: Strategy, bars: seq<Bar>): State {
    if |bars| == 0 then Start(config)
    else Step(config, strategy, RunBars(config, strategy, bars[..|bars| - 1]), bars[|bars| - 1])
  }

  // --------------------------------------------------------------------------------------------
  // The whole run
  // --------------------------------------------------------------------------------------------

  datatype RunError = InsufficientWarmup(needed: nat, got: nat)

  datatype BacktestResult =
    BacktestResult(equityCurve: seq<(int, real)>, trades: seq<Trade>, traces: seq<Trace>, finalEquity: real,
                   finalCash: real, finalPositionQty: nat, firstSignalBar: Option<int>, warmUpBarsUsed: nat,
                   attributionSummary: Dict)

  /** The bars before the start, or those from the start on, in order. */
  function Phase(config: Config, bars: seq<Bar>, backtest: bool): (r: seq<Bar>)
    ensures forall i :: 0 <= i < |r| ==> InBacktest(config, r[i]) == backtest
  {
    if |bars| == 0 then []
    else
      var r, last := Phase(config, bars[..|bars| - 1], backtest), bars[|bars| - 1];
      if InBacktest(config, last) == backtest then r + [last] else r
  }

  /** As many of the last warm-up bars as the strategy needs, then the backtest bars. */
  function BarsToProcess(config: Config, allBars: seq<Bar>): seq<Bar>
    requires |Phase(config, allBars, false)| >= config.warmupRequired
  {
    var warmup := Phase(config, allBars, false);
    warmup[|warmup| - config.warmupRequired..] + Phase(config, allBars, true)
  }

  function Attributions(trades: seq<Trade>): seq<Dict> {
    seq(|trades|, i requires 0 <= i < |trades| => trades[i].attribution)
  }

  /** The attribution of the profit that is still open at `price`. */
  function OpenAttribution(config: Config, entry: Option<EntryPosition>, price: real): Dict {
    if entry.None? || entry.value.totalQty <= 0 then []
    else
      var pos := entry.value;
      TradeAttribution(Value(price - pos.weightedAvgCost, pos.totalQty), pos.weightedFactors, config.factorWeights)
  }

  /** Adds the attribution of the open profit to the summary of what the sales realised. */
  function WithUnrealized(config: Config, summary: Dict, entry: Option<EntryPosition>, price: real): Dict {
    if entry.None? || entry.value.totalQty <= 0 then summary
    else
      var unrealized := OpenAttribution(config, entry, price);
      var added := AddAll(summary, unrealized);
      if Has(added, "total") then Put(added, "total", Get(added, "total") + Total(unrealized)) else added
  }

  function FinalPrice(config: Config, backtestBars: seq<Bar>): real {
    if |backtestBars| > 0 then backtestBars[|backtestBars| - 1].close else config.initialCapital
  }

  function ResultOf(config: Config, s: State, backtestBars: seq<Bar>): BacktestResult {
    BacktestResult(s.equityCurve, s.trades, s.traces,
                   if |s.equityCurve| > 0 then s.equityCurve[|s.equityCurve| - 1].1 else config.initialCapital,
                   s.holding.cash, s.holding.qty, s.firstSignalBar, config.warmupRequired,
                   WithUnrealized(config, Summary(Attributions(s.trades)), s.entry, FinalPrice(config, backtestBars)))
  }

  function RunBacktest(config: Config, strategy: Strategy, allBars: seq<Bar>): Result<BacktestResult, RunError> {
    var warmup := Phase(config, allBars, false);
    if |warmup| < config.warmupRequired then Failure(InsufficientWarmup(config.warmupRequired, |warmup|))
    else
      Success(ResultOf(config, RunBars(config, strategy, BarsToProcess(config, allBars)), Phase(config, allBars, true)))
  }
}
