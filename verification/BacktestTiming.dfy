/**
  What a backtest may know when: results never depend on later bars, and every fill comes at the bar after its signal.
 */
module BacktestTiming {
  import opened Common
  import opened Backtest

  // --------------------------------------------------------------------------------------------
  // No look-ahead
  // --------------------------------------------------------------------------------------------

  /** Everything recorded in `s` is still recorded, unchanged and first, in `later`. */
  predicate Extends(s: State, later: State) {
    && s.trades <= later.trades && s.traces <= later.traces
    && s.equityCurve <= later.equityCurve && s.history <= later.history
  }

  lemma StepExtends(config: Config, strategy: Strategy, s: State, bar: Bar)
    ensures Extends(s, Step(config, strategy, s, bar))
  {
    hide TradeAt, CreatePending, Complete, Equity;
  }

  lemma {:induction false} RunExtends(config: Config, strategy: Strategy, bars: seq<Bar>, n: nat)
    requires n <= |bars|
    ensures Extends(RunBars(config, strategy, bars[..n]), RunBars(config, strategy, bars))
  {
    hide Step;
    if n < |bars| {
      var m := |bars| - 1;
      RunExtends(config, strategy, bars[..m], n);
      assert bars[..m][..n] == bars[..n];
      StepExtends(config, strategy, RunBars(config, strategy, bars[..m]), bars[m]);
    } else {
      assert bars[..n] == bars;
    }
  }

  lemma {:induction false} PhaseConcat(config: Config, bars: seq<Bar>, more: seq<Bar>, backtest: bool)
    ensures Phase(config, bars + more, backtest) == Phase(config, bars, backtest) + Phase(config, more, backtest)
  {
    if |more| == 0 {
      assert bars + more == bars;
    } else {
      var n := |more| - 1;
      PhaseConcat(config, bars, more[..n], backtest);
      assert (bars + more)[..|bars| + n] == bars + more[..n];
    }
  }

  lemma {:induction false} NoneOfPhase(config: Config, bars: seq<Bar>)
    requires forall i :: 0 <= i < |bars| ==> InBacktest(config, bars[i])
    ensures Phase(config, bars, false) == []
  {
    if |bars| > 0 {
      NoneOfPhase(config, bars[..|bars| - 1]);
    }
  }

  /** Cutting the data off anywhere after the warm-up changes nothing that was recorded up to there: the trades, traces
      and equity of the shorter backtest begin those of the longer. */
  lemma LaterBarsChangeNothing(config: Config, strategy: Strategy, allBars: seq<Bar>, n: nat)
    requires n <= |allBars| && forall i :: n <= i < |allBars| ==> InBacktest(config, allBars[i])
    ensures var short, long := RunBacktest(config, strategy, allBars[..n]), RunBacktest(config, strategy, allBars);
            && (short.Failure? ==> long == short)
            && (short.Success? ==>
                  && long.Success?
                  && short.value.trades <= long.value.trades
                  && short.value.traces <= long.value.traces
                  && short.value.equityCurve <= long.value.equityCurve)
  {
    hide RunBars, WithUnrealized, Attribution.Summary, InBacktest;
    var before, after := allBars[..n], allBars[n..];
    assert allBars == before + after;
    PhaseConcat(config, before, after, false);
    PhaseConcat(config, before, after, true);
    NoneOfPhase(config, after);
    var warmup := Phase(config, before, false);
    assert Phase(config, allBars, false) == warmup;
    if |warmup| >= config.warmupRequired {
      var bars := BarsToProcess(config, allBars);
      var shorter := BarsToProcess(config, before);
      assert bars[..|shorter|] == shorter;
      RunExtends(config, strategy, bars, |shorter|);
    }
  }

  /** Two backtests on data that agree up to some bar after the warm-up agree on everything recorded up to there. */
  lemma NoLookAhead(config: Config, strategy: Strategy, bars: seq<Bar>, others: seq<Bar>, n: nat)
    requires n <= |bars| && n <= |others| && bars[..n] == others[..n]
    requires forall i :: n <= i < |bars| ==> InBacktest(config, bars[i])
    requires forall i :: n <= i < |others| ==> InBacktest(config, others[i])
    ensures var shared := RunBacktest(config, strategy, bars[..n]);
            var r, q := RunBacktest(config, strategy, bars), RunBacktest(config, strategy, others);
            && (shared.Failure? ==> r == q == shared)
            && (shared.Success? ==>
                  && r.Success? && q.Success?
                  && var (t, u, e) := (|shared.value.trades|, |shared.value.traces|, |shared.value.equityCurve|);
                  && t <= |r.value.trades| && t <= |q.value.trades| && r.value.trades[..t] == q.value.trades[..t]
                  && u <= |r.value.traces| && u <= |q.value.traces| && r.value.traces[..u] == q.value.traces[..u]
                  && e <= |r.value.equityCurve| && e <= |q.value.equityCurve|
                  && r.value.equityCurve[..e] == q.value.equityCurve[..e]
                  && e == |Phase(config, bars[..n], true)|)
  {
    hide RunBacktest, InBacktest, Phase;
    LaterBarsChangeNothing(config, strategy, bars, n);
    LaterBarsChangeNothing(config, strategy, others, n);
    if RunBacktest(config, strategy, bars[..n]).Success? {
      EquityPerBar(config, strategy, bars[..n]);
    }
  }

  lemma {:induction false} EquityPoints(config: Config, strategy: Strategy, bars: seq<Bar>)
    ensures |RunBars(config, strategy, bars).equityCurve| == |Phase(config, bars, true)|
  {
    hide ExecutePending, CreatePending, Equity;
    if |bars| > 0 {
      var n := |bars| - 1;
      EquityPoints(config, strategy, bars[..n]);
      PendingKeepsEquity(config, RunBars(config, strategy, bars[..n]), bars[n]);
    }
  }

  lemma PendingKeepsEquity(config: Config, s: State, bar: Bar)
    ensures ExecutePending(config, s, bar).equityCurve == s.equityCurve
  {
    hide TradeAt;
  }

  /** The equity curve has one point for each bar of the backtest phase. */
  lemma EquityPerBar(config: Config, strategy: Strategy, allBars: seq<Bar>)
    ensures var r := RunBacktest(config, strategy, allBars);
            r.Success? ==> |r.value.equityCurve| == |Phase(config, allBars, true)|
  {
    hide RunBars, WithUnrealized, Attribution.Summary, InBacktest, Phase;
    var warmup, backtest := Phase(config, allBars, false), Phase(config, allBars, true);
    if |warmup| >= config.warmupRequired {
      var taken := warmup[|warmup| - config.warmupRequired..];
      EquityPoints(config, strategy, taken + backtest);
      PhaseConcat(config, taken, backtest, true);
      OnePhase(config, taken, false);
      OnePhase(config, backtest, true);
    }
  }

  lemma {:induction false} OnePhase(config: Config, bars: seq<Bar>, backtest: bool)
    requires forall i :: 0 <= i < |bars| ==> InBacktest(config, bars[i]) == backtest
    ensures Phase(config, bars, backtest) == bars && Phase(config, bars, !backtest) == []
  {
    if |bars| > 0 {
      OnePhase(config, bars[..|bars| - 1], backtest);
      assert bars == bars[..|bars| - 1] + [bars[|bars| - 1]];
    }
  }

  /** A fill knows of its own bar only the open and the time: nothing the bar does later in the day can change the
      trade, the cash or the position that the strategy is then shown. */
  lemma FillKnowsOnlyTheOpen(config: Config, s: State, bar: Bar, other: Bar)
    requires bar.timestamp == other.timestamp && bar.open == other.open
    ensures var t, u := ExecutePending(config, s, bar), ExecutePending(config, s, other);
            t.trades == u.trades && t.holding == u.holding && t.entry == u.entry
  {
    hide ApplyTrade, Attribution.TradeAttribution;
    if s.pendingSignal.Some? {
      assert TradeAt(config, s, s.pendingSignal.value, bar) == TradeAt(config, s, s.pendingSignal.value, other);
    }
  }

  // --------------------------------------------------------------------------------------------
  // Signals and their fills
  // --------------------------------------------------------------------------------------------

  /** The trace tells of a signal at bar `i` filled at bar `j` of the backtest phase, all bars between being warm-up. */
  predicate FilledAt(config: Config, bars: seq<Bar>, trace: Trace, i: nat, j: nat) {
    && i < j < |bars| && trace.signalBar == bars[i] && trace.fill.Some? && trace.fill.value.bar == bars[j]
    && InBacktest(config, bars[j]) && forall k :: i < k < j ==> !InBacktest(config, bars[k])
  }

  predicate Filled(config: Config, bars: seq<Bar>, trace: Trace) {
    exists i, j :: 0 <= i < j < |bars| && FilledAt(config, bars, trace, i, j)
  }

  /** Only warm-up bars have passed since the signal. */
  predicate Waiting(config: Config, bars: seq<Bar>, trace: Trace) {
    exists i :: 0 <= i < |bars| && WaitingSince(config, bars, trace, i)
  }

  predicate WaitingSince(config: Config, bars: seq<Bar>, trace: Trace, i: nat) {
    i < |bars| && trace.signalBar == bars[i] && forall k :: i < k < |bars| ==> !InBacktest(config, bars[k])
  }

  /** A trade and the trace of its signal say the same. */
  predicate Matches(config: Config, trade: Trade, trace: Trace) {
    && trace.direction == trade.side && trace.quantity == trade.quantity
    && trace.fill.Some?
    && var fill := trace.fill.value;
    && fill.quantity == trade.quantity && fill.price == trade.FillPrice() && fill.commission == trade.commission
    && fill.bar.timestamp == trade.timestamp && fill.expectedPrice == fill.bar.open == trade.grossPrice
    && trade.slippage == Slippage(config, fill.bar.open)
    && (fill.bar.open != 0.0 ==>
          fill.slippage == Some(if trade.side == Buy then trade.slippage else -trade.slippage))
  }

  ghost predicate PendingTraced(config: Config, bars: seq<Bar>, s: State) {
    s.pendingSignal.Some? ==>
      var signal := s.pendingSignal.value;
      && signal.timestamp in s.pendingTraces
      && var trace := s.pendingTraces[signal.timestamp];
         trace.direction == signal.action && trace.quantity == signal.quantity && Waiting(config, bars, trace)
  }

  ghost predicate TradesTraced(config: Config, bars: seq<Bar>, s: State) {
    && |s.traces| == |s.trades|
    && forall i :: 0 <= i < |s.traces| ==>
         Matches(config, s.trades[i], s.traces[i]) && Filled(config, bars, s.traces[i])
  }

  lemma StillFilled(config: Config, bars: seq<Bar>, bar: Bar, trace: Trace)
    requires Filled(config, bars, trace)
    ensures Filled(config, bars + [bar], trace)
  {
    var i, j :| 0 <= i < j < |bars| && FilledAt(config, bars, trace, i, j);
    assert FilledAt(config, bars + [bar], trace, i, j);
  }

  lemma NowFilled(config: Config, bars: seq<Bar>, bar: Bar, trace: Trace, t: Trade)
    requires Waiting(config, bars, trace) && InBacktest(config, bar)
    ensures Filled(config, bars + [bar], Complete(trace, bar, t))
  {
    var i :| 0 <= i < |bars| && WaitingSince(config, bars, trace, i);
    assert FilledAt(config, bars + [bar], Complete(trace, bar, t), i, |bars|);
  }

  lemma StillWaiting(config: Config, bars: seq<Bar>, bar: Bar, trace: Trace)
    requires Waiting(config, bars, trace) && !InBacktest(config, bar)
    ensures Waiting(config, bars + [bar], trace)
  {
    var i :| 0 <= i < |bars| && WaitingSince(config, bars, trace, i);
    assert WaitingSince(config, bars + [bar], trace, i);
  }

  lemma TradeMatches(config: Config, s: State, signal: Signal, bar: Bar, trace: Trace)
    requires trace.direction == signal.action && trace.quantity == signal.quantity
    ensures var t := TradeAt(config, s, signal, bar);
            t.Some? ==> Matches(config, t.value, Complete(trace, bar, t.value))
  {
    hide Attribution.TradeAttribution, SellPnl, Slippage, Commission;
  }

  lemma ExecutionIsTraced(config: Config, bars: seq<Bar>, s: State, bar: Bar)
    requires PendingTraced(config, bars, s) && TradesTraced(config, bars, s)
    ensures var s' := ExecutePending(config, s, bar);
            && TradesTraced(config, bars + [bar], s')
            && PendingTraced(config, bars + [bar], s')
  {
    hide TradeAt, ApplyTrade, Filled, Waiting, Matches, Complete;
    var s' := ExecutePending(config, s, bar);
    forall i | 0 <= i < |s.traces|
      ensures Filled(config, bars + [bar], s.traces[i])
    {
      StillFilled(config, bars, bar, s.traces[i]);
    }
    if s.pendingSignal.Some? {
      var signal := s.pendingSignal.value;
      var trace := s.pendingTraces[signal.timestamp];
      if InBacktest(config, bar) {
        TradeMatches(config, s, signal, bar, trace);
        var t := TradeAt(config, s, signal, bar);
        if t.Some? {
          AppliedTrade(s, t.value);
          NowFilled(config, bars, bar, trace, t.value);
        }
      } else {
        StillWaiting(config, bars, bar, trace);
      }
    }
  }

  lemma AppliedTrade(s: State, t: Trade)
    requires t.side == Sell ==> CanSell(s.holding, t.quantity)
    ensures var s' := ApplyTrade(s, t);
            s'.trades == s.trades + [t] && s'.traces == s.traces && s'.pendingTraces == s.pendingTraces
  {
  }

  lemma ConsultationIsTraced(config: Config, strategy: Strategy, bars: seq<Bar>, s: State, bar: Bar)
    requires PendingTraced(config, bars + [bar], s)
    ensures PendingTraced(config, bars + [bar], ConsultStrategy(strategy, s, bar))
  {
    hide Waiting, Equity;
    var s' := ConsultStrategy(strategy, s, bar);
    var signals := strategy(s.history + [ObservationOf(s, bar)]);
    if |signals| > 0 {
      var trace := CreatePending(signals[0], bar, s.holding);
      JustSignalled(config, bars, bar, trace);
    }
  }

  lemma JustSignalled(config: Config, bars: seq<Bar>, bar: Bar, trace: Trace)
    requires trace.signalBar == bar
    ensures Waiting(config, bars + [bar], trace)
  {
    assert WaitingSince(config, bars + [bar], trace, |bars|);
  }

  /** In every run, every trade has its trace, in order, and no trace is without its trade. */
  lemma {:induction false} EveryTradeIsTraced(config: Config, strategy: Strategy, bars: seq<Bar>)
    ensures var s := RunBars(config, strategy, bars);
            PendingTraced(config, bars, s) && TradesTraced(config, bars, s)
  {
    hide ExecutePending, ConsultStrategy, Waiting, Filled, Matches, Equity;
    if |bars| > 0 {
      var before, bar := bars[..|bars| - 1], bars[|bars| - 1];
      assert before + [bar] == bars;
      var s := RunBars(config, strategy, before);
      EveryTradeIsTraced(config, strategy, before);
      ExecutionIsTraced(config, before, s, bar);
      var executed := ExecutePending(config, s, bar);
      ConsultationIsTraced(config, strategy, before, executed, bar);
      ConsultationKeeps(strategy, executed, bar);
    }
  }

  lemma ConsultationKeeps(strategy: Strategy, s: State, bar: Bar)
    ensures var s' := ConsultStrategy(strategy, s, bar); s'.trades == s.trades && s'.traces == s.traces
  {
  }

  /** In a backtest every trade is the fill of the trace beside it, which happened at the bar right after its signal's;
      only a signal of the last warm-up bars may have waited, and then for the first bar of the backtest phase. */
  lemma FillsFollowSignals(config: Config, strategy: Strategy, allBars: seq<Bar>)
    requires RunBacktest(config, strategy, allBars).Success?
    ensures var r, bars := RunBacktest(config, strategy, allBars).value, BarsToProcess(config, allBars);
            && |r.traces| == |r.trades|
            && forall t :: 0 <= t < |r.traces| ==>
                 && Matches(config, r.trades[t], r.traces[t])
                 && exists i, j :: 0 <= i < j < |bars| && FilledAt(config, bars, r.traces[t], i, j)
                      && (j == i + 1 || (!InBacktest(config, bars[i]) && j == config.warmupRequired))
  {
    hide RunBars, WithUnrealized, Attribution.Summary, Matches;
    var r, bars := RunBacktest(config, strategy, allBars).value, BarsToProcess(config, allBars);
    EveryTradeIsTraced(config, strategy, bars);
    forall t | 0 <= t < |r.traces|
      ensures exists i, j :: 0 <= i < j < |bars| && FilledAt(config, bars, r.traces[t], i, j)
                && (j == i + 1 || (!InBacktest(config, bars[i]) && j == config.warmupRequired))
    {
      assert Filled(config, bars, r.traces[t]);
      var i, j :| 0 <= i < j < |bars| && FilledAt(config, bars, r.traces[t], i, j);
      PhasesInOrder(config, allBars, i);
      PhasesInOrder(config, allBars, i + 1);
      PhasesInOrder(config, allBars, j);
      PhasesInOrder(config, allBars, j - 1);
    }
  }

  lemma PhasesInOrder(config: Config, allBars: seq<Bar>, i: nat)
    requires |Phase(config, allBars, false)| >= config.warmupRequired && i < |BarsToProcess(config, allBars)|
    ensures InBacktest(config, BarsToProcess(config, allBars)[i]) <==> i >= config.warmupRequired
  {
    hide InBacktest;
    var warmup := Phase(config, allBars, false);
    var taken := warmup[|warmup| - config.warmupRequired..];
    assert forall k :: 0 <= k < |taken| ==> taken[k] == warmup[|warmup| - config.warmupRequired + k];
  }
}
