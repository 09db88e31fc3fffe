/**
  The backtest as it runs: the portfolio of backend/src/backtest/portfolio.py and the event loop of engine.py.

  The loop's local variables are the fields of a `BacktestRun`.
 */
module BacktestEngines {
  import opened Common
  import opened FactorDicts
  import opened Attribution
  import opened Backtest

  class BacktestPortfolio {
    var cash: real
    var positionQty: nat
    var positionAvgCost: real

    function State(): Holding
      reads this
    {
      Holding(cash, positionQty, positionAvgCost)
    }

    constructor (initialCapital: real)
      ensures State() == Holding(initialCapital, 0, 0.0)
    {
      cash, positionQty, positionAvgCost := initialCapital, 0, 0.0;
    }

    /** Buys with the cash there is; sells, at the unchanged average cost, what is held. */
    method ApplyTrade(trade: Trade)
      requires trade.side == Sell ==> CanSell(State(), trade.quantity)
      modifies this
      ensures State() == if trade.side == Buy then ApplyBuy(old(State()), trade) else ApplySell(old(State()), trade)
    {
      if trade.side == Buy {
        ApplyBuyTrade(trade);
      } else {
        ApplySellTrade(trade);
      }
    }

    method ApplyBuyTrade(trade: Trade)
      modifies this
      ensures State() == ApplyBuy(old(State()), trade)
    {
      var tradeValue := Value(trade.FillPrice(), trade.quantity);
      if positionQty == 0 {
        positionAvgCost := trade.FillPrice();
      } else {
        var totalValue := Value(positionAvgCost, positionQty) + tradeValue;
        positionAvgCost := totalValue / (positionQty + trade.quantity) as real;
      }
      cash := cash - (tradeValue + trade.commission);
      positionQty := positionQty + trade.quantity;
    }

    method ApplySellTrade(trade: Trade)
      requires CanSell(State(), trade.quantity)
      modifies this
      ensures State() == ApplySell(old(State()), trade)
    {
      var netProceeds := Value(trade.FillPrice(), trade.quantity) - trade.commission;
      cash := cash + netProceeds;
      positionQty := positionQty - trade.quantity;
    }
  }

  /** The loop over a new lot's factor scores. */
  method AverageFactors(factors: Dict, scores: Dict, oldQty: int, quantity: nat) returns (weighted: Dict)
    ensures weighted == WeighFactors(factors, scores, oldQty, quantity)
  {
    hide WeightedAverage, Put, Get;
    weighted := factors;
    for i := 0 to |scores|
      invariant weighted == WeighFactors(factors, scores[..i], oldQty, quantity)
    {
      assert scores[..i + 1][..i] == scores[..i];
      if oldQty + quantity > 0 {
        var oldScore := Get(weighted, scores[i].name);
        weighted := Put(weighted, scores[i].name, WeightedAverage(oldScore, oldQty, scores[i].value, quantity));
      }
    }
    assert scores[..|scores|] == scores;
  }

  class BacktestRun {
    const config: Config
    const strategy: Strategy
    const portfolio: BacktestPortfolio
    var entry: Option<EntryPosition>
    var pendingSignal: Option<Signal>
    var pendingTraces: map<int, Trace>
    var completedTraces: seq<Trace>
    var trades: seq<Trade>
    var equityCurve: seq<(int, real)>
    var firstSignalBar: Option<int>
    var history: seq<Observation>

    function State(): State
      reads this, portfolio
    {
      Backtest.State(portfolio.State(), entry, pendingSignal, pendingTraces, completedTraces, trades, equityCurve,
                     firstSignalBar, history)
    }

    constructor (config: Config, strategy: Strategy)
      ensures this.config == config && this.strategy == strategy
      ensures fresh(portfolio) && State() == Start(config)
    {
      this.config, this.strategy := config, strategy;
      portfolio := new BacktestPortfolio(config.initialCapital);
      entry, pendingSignal, pendingTraces, completedTraces, trades := None, None, map[], [], [];
      equityCurve, firstSignalBar, history := [], None, [];
    }

    method ExecuteBuy(signal: Signal, bar: Bar) returns (executed: Option<Trade>)
      requires signal.action == Buy
      modifies this, portfolio
      ensures executed == TradeAt(config, old(State()), signal, bar)
      ensures State() == if executed.Some? then ApplyTrade(old(State()), executed.value) else old(State())
    {
      hide WeightedAverage, WeighFactors, ApplyBuy, Slippage, Commission;
      if !CanBuy(portfolio.State(), bar.open, signal.quantity, Commission(config, signal.quantity)) {
        return None;
      }
      var trade := Execute(config, signal, bar);
      portfolio.ApplyTrade(trade);
      trades := trades + [trade];
      var pos := if entry.Some? then entry.value else NoEntry;
      var oldQty := pos.totalQty;
      var newQty := oldQty + trade.quantity;
      if newQty > 0 {
        pos := pos.(weightedAvgCost := WeightedAverage(pos.weightedAvgCost, oldQty, trade.FillPrice(), trade.quantity));
      }
      var weightedFactors := AverageFactors(pos.weightedFactors, trade.entryFactors, oldQty, trade.quantity);
      entry := Some(pos.(weightedFactors := weightedFactors, totalQty := newQty,
                         totalCommission := pos.totalCommission + trade.commission));
      executed := Some(trade);
    }

    method ExecuteSell(signal: Signal, bar: Bar) returns (executed: Option<Trade>)
      requires signal.action == Sell
      modifies this, portfolio
      ensures executed == TradeAt(config, old(State()), signal, bar)
      ensures State() == if executed.Some? then ApplyTrade(old(State()), executed.value) else old(State())
    {
      hide Slippage, Commission, TradeAttribution, Prorata, Total;
      if !CanSell(portfolio.State(), signal.quantity) {
        return None;
      }
      var trade := Execute(config, signal, bar).(exitFactors := signal.factorScores);
      portfolio.ApplyTrade(trade);
      if entry.Some? {
        var pos := entry.value;
        var entryCommission := Prorata(pos.totalCommission, trade.quantity, pos.totalQty);
        var pnl := Value(trade.FillPrice() - pos.weightedAvgCost, trade.quantity) - trade.commission - entryCommission;
        var attribution := CalculateTradeAttribution(pnl, pos.weightedFactors, config.factorWeights);
        trade := trade.(attribution := attribution);
        pos := pos.(totalQty := pos.totalQty - trade.quantity,
                    totalCommission := pos.totalCommission - entryCommission);
        entry := if pos.totalQty <= 0 then None else Some(pos);
      }
      trades := trades + [trade];
      executed := Some(trade);
    }

    method ExecutePendingSignal(bar: Bar)
      modifies this, portfolio
      ensures State() == ExecutePending(config, old(State()), bar)
    {
      hide TradeAt, ApplyTrade;
      if pendingSignal.None? || bar.timestamp < config.startTime {
        return;
      }
      var signal := pendingSignal.value;
      var trade: Option<Trade>;
      if signal.action == Buy {
        trade := ExecuteBuy(signal, bar);
      } else {
        trade := ExecuteSell(signal, bar);
      }
      if trade.Some? && signal.timestamp in pendingTraces {
        completedTraces := completedTraces + [Complete(pendingTraces[signal.timestamp], bar, trade.value)];
        pendingTraces := pendingTraces - {signal.timestamp};
      }
      pendingSignal := None;
    }

    /** One pass of the loop's body. */
    method ProcessBar(bar: Bar)
      modifies this, portfolio
      ensures State() == Step(config, strategy, old(State()), bar)
    {
      hide ExecutePending, CreatePending, Equity;
      ExecutePendingSignal(bar);
      history := history + [ObservationOf(State(), bar)];
      var signals := strategy(history);
      if |signals| > 0 {
        pendingSignal := Some(signals[0]);
        if firstSignalBar.None? {
          firstSignalBar := Some(bar.timestamp);
        }
        pendingTraces := pendingTraces[signals[0].timestamp := CreatePending(signals[0], bar, portfolio.State())];
      }
      if bar.timestamp >= config.startTime {
        equityCurve := equityCurve + [(bar.timestamp, Equity(portfolio.State(), bar.close))];
      }
    }
  }

  method Run(config: Config, strategy: Strategy, allBars: seq<Bar>) returns (r: Result<BacktestResult, RunError>)
    ensures r == RunBacktest(config, strategy, allBars)
  {
    hide Step, Summary, WithUnrealized, Phase, InBacktest, Attributions;
    var warmupBars, backtestBars := Phase(config, allBars, false), Phase(config, allBars, true);
    if |warmupBars| < config.warmupRequired {
      return Failure(InsufficientWarmup(config.warmupRequired, |warmupBars|));
    }
    var bars := warmupBars[|warmupBars| - config.warmupRequired..] + backtestBars;
    var run := new BacktestRun(config, strategy);
    for i := 0 to |bars|
      invariant fresh(run) && fresh(run.portfolio) && run.config == config && run.strategy == strategy
      invariant run.State() == RunBars(config, strategy, bars[..i])
    {
      assert bars[..i + 1][..i] == bars[..i];
      run.ProcessBar(bars[i]);
    }
    assert bars[..|bars|] == bars;
    var summary := CalculateSummary(Attributions(run.trades));
    var finalPrice := if |backtestBars| > 0 then backtestBars[|backtestBars| - 1].close else config.initialCapital;
    summary := AddUnrealized(config, summary, run.entry, finalPrice);
    r := Success(BacktestResult(
      run.equityCurve, run.trades, run.completedTraces,
      if |run.equityCurve| > 0 then run.equityCurve[|run.equityCurve| - 1].1 else config.initialCapital,
      run.portfolio.cash, run.portfolio.positionQty, run.firstSignalBar, config.warmupRequired, summary));
  }

  method AddUnrealized(config: Config, summary: Dict, entry: Option<EntryPosition>, finalPrice: real)
    returns (result: Dict)
    ensures result == WithUnrealized(config, summary, entry, finalPrice)
  {
    hide Put, Get, Has, Total, TradeAttribution;
    result := summary;
    if entry.Some? && entry.value.totalQty > 0 {
      var pos := entry.value;
      var unrealizedPnl := Value(finalPrice - pos.weightedAvgCost, pos.totalQty);
      var attribution := CalculateTradeAttribution(unrealizedPnl, pos.weightedFactors, config.factorWeights);
      for i := 0 to |attribution|
        invariant result == AddAll(summary, attribution[..i])
      {
        assert attribution[..i + 1][..i] == attribution[..i];
        ghost var was := result;
        var e := attribution[i];
        if !Has(result, e.name) {
          result := Put(result, e.name, 0.0);
        }
        result := Put(result, e.name, Get(result, e.name) + e.value);
        PutTwice(was, e.name, e.value);
      }
      assert attribution[..|attribution|] == attribution;
      if Has(result, "total") {
        result := Put(result, "total", Get(result, "total") + Total(attribution));
      }
    }
  }
}
