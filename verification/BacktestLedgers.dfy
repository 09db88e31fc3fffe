/**
  The money of a backtest: the portfolio, the entry ledger and the trades tell one story, and what is attributed to
  factors is what was earned.
 */
module BacktestLedgers {
  import opened Common
  import opened FactorDicts
  import opened Attribution
  import opened Backtest

  // --------------------------------------------------------------------------------------------
  // An independent account
  // --------------------------------------------------------------------------------------------

  /** Average-cost bookkeeping from nothing but a list of trades: the shares held, what they cost, the commission paid
      for them, and the profit of the shares sold, after both commissions. `named` says whether a purchase since the
      shares were last all sold named a factor; `uncredited` is the profit of sales made while none had. */
  datatype Book = Book(qty: int, cost: real, commission: real, realised: real, named: bool, uncredited: real)

  function Post(b: Book, t: Trade): Book {
    var amount := Value(t.FillPrice(), t.quantity);
    if t.side == Buy then
      Book(b.qty + t.quantity, b.cost + amount, b.commission + t.commission, b.realised,
           b.named || (b.qty + t.quantity > 0 && t.entryFactors != []), b.uncredited)
    else
      var cost, commission := Prorata(b.cost, t.quantity, b.qty), Prorata(b.commission, t.quantity, b.qty);
      var gain := amount - t.commission - cost - commission;
      Book(b.qty - t.quantity, b.cost - cost, b.commission - commission, b.realised + gain,
           b.named && b.qty - t.quantity > 0, if b.named then b.uncredited else b.uncredited + gain)
  }

  function Replay(trades: seq<Trade>): Book {
    if |trades| == 0 then Book(0, 0.0, 0.0, 0.0, false, 0.0)
    else Post(Replay(trades[..|trades| - 1]), trades[|trades| - 1])
  }

  // --------------------------------------------------------------------------------------------
  // Arithmetic
  // --------------------------------------------------------------------------------------------

  lemma AverageCost(a: real, m: int, b: real, n: int)
    requires m + n > 0
    ensures Value(WeightedAverage(a, m, b, n), m + n) == Value(a, m) + Value(b, n)
  {
  }

  lemma NothingHeld(a: real, b: real)
    ensures Value(a, 0) == 0.0 && Prorata(b, 0, 0) == 0.0
  {
  }

  lemma FirstLot(a: real, b: real, n: nat)
    requires n > 0
    ensures WeightedAverage(a, 0, b, n) == b
  {
    hide Value, WeightedAverage;
    NothingHeld(a, 0.0);
    AverageOfOne(a, b, n);
  }

  lemma AverageOfOne(a: real, b: real, n: nat)
    requires n > 0 && Value(a, 0) == 0.0
    ensures WeightedAverage(a, 0, b, n) == b
  {
    assert WeightedAverage(a, 0, b, n) == (0.0 + b * n as real) / n as real;
  }

  lemma PartOfAverage(a: real, n: int, q: nat)
    requires n > 0
    ensures Prorata(Value(a, n), q, n) == Value(a, q)
    ensures Value(a, n) - Value(a, q) == Value(a, n - q)
  {
    var x, y, z := a, n as real, q as real;
    assert x * y * z / y == x * z;
    assert x * y - x * z == x * (y - z);
  }

  lemma WholeOf(c: real, n: nat)
    requires n > 0
    ensures Prorata(c, n, n) == c
  {
  }

  lemma ValueOfDifference(p: real, a: real, q: int)
    ensures Value(p - a, q) == Value(p, q) - Value(a, q)
  {
  }

  // --------------------------------------------------------------------------------------------
  // The ledgers agree
  // --------------------------------------------------------------------------------------------

  /** Quantity and average cost are the same in the portfolio and in the entry ledger. */
  predicate LedgersAgree(s: State) {
    match s.entry
    case None => s.holding.qty == 0
    case Some(pos) => pos.totalQty == s.holding.qty && (s.holding.qty > 0 ==> pos.weightedAvgCost == s.holding.avgCost)
  }

  /** And both are what the trades come to. */
  predicate BooksBalance(config: Config, s: State) {
    var b := Replay(s.trades);
    && b.qty == s.holding.qty
    && s.holding.cash + b.cost + b.commission == config.initialCapital + b.realised
    && match s.entry
       case None => b.cost == 0.0 && b.commission == 0.0
       case Some(pos) => b.cost == Value(pos.weightedAvgCost, pos.totalQty) && b.commission == pos.totalCommission
                         && (pos.totalQty == 0 ==> pos.totalCommission == 0.0)
  }

  lemma ReplayAppend(trades: seq<Trade>, t: Trade)
    ensures Replay(trades + [t]) == Post(Replay(trades), t)
  {
    assert (trades + [t])[..|trades|] == trades;
  }

  lemma BuyBalances(config: Config, s: State, t: Trade)
    requires LedgersAgree(s) && BooksBalance(config, s) && t.side == Buy && (t.quantity == 0 ==> t.commission == 0.0)
    ensures LedgersAgree(ApplyTrade(s, t)) && BooksBalance(config, ApplyTrade(s, t))
  {
    hide Value, WeightedAverage, WeighFactors, Prorata, Replay;
    ReplayAppend(s.trades, t);
    var pos := if s.entry.Some? then s.entry.value else NoEntry;
    var p, m, n := t.FillPrice(), pos.totalQty, t.quantity;
    NothingHeld(pos.weightedAvgCost, 0.0);
    NothingHeld(p, 0.0);
    if m + n > 0 {
      AverageCost(pos.weightedAvgCost, m, p, n);
      if m == 0 {
        FirstLot(pos.weightedAvgCost, p, n);
      }
    }
    if n == 0 && m > 0 {
      assert s.holding.qty > 0;
    }
  }

  lemma SellBalances(config: Config, s: State, t: Trade)
    requires LedgersAgree(s) && BooksBalance(config, s) && t.side == Sell && CanSell(s.holding, t.quantity)
    requires t.quantity == 0 ==> t.commission == 0.0
    ensures LedgersAgree(ApplyTrade(s, t)) && BooksBalance(config, ApplyTrade(s, t))
    ensures Replay(s.trades + [t]).realised - Replay(s.trades).realised
         == if s.entry.Some? then SellPnl(s.entry.value, t) else 0.0
  {
    hide Value, Prorata, Replay;
    ReplayAppend(s.trades, t);
    var b, p, q := Replay(s.trades), t.FillPrice(), t.quantity;
    NothingHeld(p, 0.0);
    if s.holding.qty == 0 {
      NothingHeld(0.0, b.cost);
      NothingHeld(0.0, b.commission);
    }
    if s.entry.Some? {
      var pos := s.entry.value;
      var a, n := pos.weightedAvgCost, pos.totalQty;
      ValueOfDifference(p, a, q);
      NothingHeld(a, pos.totalCommission);
      if n > 0 {
        PartOfAverage(a, n, q);
        WholeOf(pos.totalCommission, n);
      }
    }
  }

  lemma NoCommissionOnNothing(config: Config)
    ensures Commission(config, 0) == 0.0
  {
  }

  lemma StepKeepsBooks(config: Config, strategy: Strategy, s: State, bar: Bar)
    requires LedgersAgree(s) && BooksBalance(config, s)
    ensures LedgersAgree(Step(config, strategy, s, bar)) && BooksBalance(config, Step(config, strategy, s, bar))
  {
    hide ApplyTrade, LedgersAgree, BooksBalance, TradeAttribution, SellPnl, Commission, Slippage, CreatePending,
      Complete;
    NoCommissionOnNothing(config);
    if s.pendingSignal.Some? && InBacktest(config, bar) {
      var signal := s.pendingSignal.value;
      var t := TradeAt(config, s, signal, bar);
      if t.Some? && t.value.side == Buy {
        BuyBalances(config, s, t.value);
      }
      if t.Some? && t.value.side == Sell {
        SellBalances(config, s, t.value);
      }
      if t.Some? {
        SameMoney(config, ApplyTrade(s, t.value), Step(config, strategy, s, bar));
      } else {
        SameMoney(config, s, Step(config, strategy, s, bar));
      }
    } else {
      SameMoney(config, s, Step(config, strategy, s, bar));
    }
  }

  lemma SameMoney(config: Config, s: State, s': State)
    requires LedgersAgree(s) && BooksBalance(config, s)
    requires s'.holding == s.holding && s'.entry == s.entry && s'.trades == s.trades
    ensures LedgersAgree(s') && BooksBalance(config, s')
  {
  }

  /** After every bar of every backtest, through scale-ins, partial exits and reopenings, the two ledgers agree with
      each other and with the trades; cash and the cost of what is held make up the initial capital and the profits. */
  lemma {:induction false} MoneyIsConserved(config: Config, strategy: Strategy, bars: seq<Bar>)
    ensures var s := RunBars(config, strategy, bars); LedgersAgree(s) && BooksBalance(config, s)
  {
    hide Step;
    if |bars| == 0 {
      NothingHeld(0.0, 0.0);
    } else {
      MoneyIsConserved(config, strategy, bars[..|bars| - 1]);
      StepKeepsBooks(config, strategy, RunBars(config, strategy, bars[..|bars| - 1]), bars[|bars| - 1]);
    }
  }

  // --------------------------------------------------------------------------------------------
  // What factors are credited with
  // --------------------------------------------------------------------------------------------

  /** No purchase names a factor "total". */
  predicate NoneNamedTotal(trades: seq<Trade>) {
    forall i :: 0 <= i < |trades| && trades[i].side == Buy ==> !Has(trades[i].entryFactors, "total")
  }

  /** Every purchase names a factor to credit. */
  predicate BuysNameFactors(trades: seq<Trade>) {
    forall i :: 0 <= i < |trades| && trades[i].side == Buy ==> trades[i].entryFactors != []
  }

  /** What the attributions lack of the realised profit is what was sold while no factor had been named; the entry
      ledger has a factor to credit exactly when the trades say so. */
  predicate Credited(s: State) {
    var b := Replay(s.trades);
    && GrandTotal(Attributions(s.trades)) == b.realised - b.uncredited
    && (b.named <==> s.entry.Some? && s.entry.value.weightedFactors != [])
    && (NoneNamedTotal(s.trades) ==>
          TotalOf(Attributions(s.trades), "total") == 0.0
          && (s.entry.Some? ==> !Has(s.entry.value.weightedFactors, "total")))
    && (BuysNameFactors(s.trades) ==> b.uncredited == 0.0 && (b.qty > 0 ==> b.named))
  }

  lemma AttributionsAppend(trades: seq<Trade>, t: Trade)
    ensures GrandTotal(Attributions(trades + [t])) == GrandTotal(Attributions(trades)) + Total(t.attribution)
    ensures TotalOf(Attributions(trades + [t]), "total")
         == TotalOf(Attributions(trades), "total") + Get(t.attribution, "total")
  {
    hide Total, Get;
    var before, after := Attributions(trades), Attributions(trades + [t]);
    assert after == before + [t.attribution];
    assert after[..|before|] == before;
  }

  lemma {:induction false} WeighedNames(factors: Dict, scores: Dict, oldQty: int, quantity: nat, name: string)
    ensures Has(WeighFactors(factors, scores, oldQty, quantity), name)
       <==> Has(factors, name) || (oldQty + quantity > 0 && Has(scores, name))
  {
    hide Put, Get, WeightedAverage, Has;
    if |scores| == 0 {
      EmptyDict(name);
    } else {
      var n := |scores| - 1;
      PrefixOf(scores);
      WeighedNames(factors, scores[..n], oldQty, quantity, name);
      AppendEntry(scores[..n], scores[n], name);
      if oldQty + quantity > 0 {
        var r := WeighFactors(factors, scores[..n], oldQty, quantity);
        PutEffect(r, scores[n].name, WeightedAverage(Get(r, scores[n].name), oldQty, scores[n].value, quantity), name);
      }
    }
  }

  lemma SomeName(d: Dict)
    ensures d != [] <==> exists name :: Has(d, name)
  {
    if d != [] {
      assert Has(d, d[0].name);
    }
  }

  lemma AttributedNames(pnl: real, factors: Dict, weights: Option<Dict>, name: string)
    ensures Has(TradeAttribution(pnl, factors, weights), name) <==> Has(factors, name)
  {
    hide Share, EqualShare, WeightOf, WeightSum;
    var r := TradeAttribution(pnl, factors, weights);
    assert |r| == |factors| && forall i :: 0 <= i < |r| ==> r[i].name == factors[i].name;
  }

  lemma BuysBefore(trades: seq<Trade>, t: Trade)
    ensures BuysNameFactors(trades + [t]) <==> BuysNameFactors(trades) && (t.side == Buy ==> t.entryFactors != [])
    ensures NoneNamedTotal(trades + [t])
       <==> NoneNamedTotal(trades) && (t.side == Buy ==> !Has(t.entryFactors, "total"))
  {
    hide Has;
    var all := trades + [t];
    assert all[|trades|] == t && forall i :: 0 <= i < |trades| ==> all[i] == trades[i];
  }

  lemma WeighedSome(factors: Dict, scores: Dict, oldQty: int, quantity: nat)
    ensures WeighFactors(factors, scores, oldQty, quantity) != []
       <==> factors != [] || (oldQty + quantity > 0 && scores != [])
  {
    hide Has, WeighFactors;
    var r := WeighFactors(factors, scores, oldQty, quantity);
    SomeName(factors);
    SomeName(scores);
    SomeName(r);
    forall name
      ensures Has(r, name) <==> Has(factors, name) || (oldQty + quantity > 0 && Has(scores, name))
    {
      WeighedNames(factors, scores, oldQty, quantity, name);
    }
  }

  lemma BuyKeepsCredit(config: Config, s: State, t: Trade)
    requires Credited(s) && LedgersAgree(s) && BooksBalance(config, s)
    requires t.side == Buy && t.attribution == []
    ensures Credited(ApplyTrade(s, t))
  {
    hide Replay, Has, WeighFactors, WeightedAverage, Value, GrandTotal, TotalOf, Attributions, BuysNameFactors,
      NoneNamedTotal;
    ReplayAppend(s.trades, t);
    AttributionsAppend(s.trades, t);
    BuysBefore(s.trades, t);
    EmptyDict("total");
    var pos := if s.entry.Some? then s.entry.value else NoEntry;
    WeighedNames(pos.weightedFactors, t.entryFactors, pos.totalQty, t.quantity, "total");
    WeighedSome(pos.weightedFactors, t.entryFactors, pos.totalQty, t.quantity);
  }

  lemma NothingSoldNothingEarned(pos: EntryPosition, t: Trade)
    requires pos.totalQty == 0 && t.quantity == 0 && t.commission == 0.0
    ensures SellPnl(pos, t) == 0.0
  {
  }

  lemma SellKeepsCredit(config: Config, s: State, t: Trade)
    requires Credited(s) && LedgersAgree(s) && BooksBalance(config, s)
    requires t.side == Sell && CanSell(s.holding, t.quantity) && (t.quantity == 0 ==> t.commission == 0.0)
    requires t.attribution == if s.entry.None? then []
                              else TradeAttribution(SellPnl(s.entry.value, t), s.entry.value.weightedFactors,
                                                    config.factorWeights)
    ensures Credited(ApplyTrade(s, t))
  {
    hide Replay, Has, Get, Total, Value, GrandTotal, TotalOf, Attributions, TradeAttribution, SellPnl, Prorata,
      ApplySell, BuysNameFactors, NoneNamedTotal;
    SellBalances(config, s, t);
    ReplayAppend(s.trades, t);
    AttributionsAppend(s.trades, t);
    BuysBefore(s.trades, t);
    EmptyDict("total");
    if s.entry.Some? {
      var pos := s.entry.value;
      AttributionSumsIff(SellPnl(pos, t), pos.weightedFactors, config.factorWeights);
      AttributedNames(SellPnl(pos, t), pos.weightedFactors, config.factorWeights, "total");
      if !Has(t.attribution, "total") {
        AbsentIsZero(t.attribution, "total");
      }
      if pos.weightedFactors == [] {
        NothingAttributed(SellPnl(pos, t), config.factorWeights);
      }
      if pos.totalQty == 0 {
        NothingSoldNothingEarned(pos, t);
      }
    }
  }

  lemma SaleIsAttributed(config: Config, s: State, signal: Signal, bar: Bar)
    requires signal.action == Sell && TradeAt(config, s, signal, bar).Some?
    ensures var t := TradeAt(config, s, signal, bar).value;
            t.attribution == if s.entry.None? then []
                             else TradeAttribution(SellPnl(s.entry.value, t), s.entry.value.weightedFactors,
                                                   config.factorWeights)
  {
    hide Value, Prorata, TradeAttribution, Commission, Slippage;
  }

  lemma SameCredit(s: State, s': State)
    requires Credited(s) && s'.entry == s.entry && s'.trades == s.trades
    ensures Credited(s')
  {
  }

  lemma StepKeepsCredit(config: Config, strategy: Strategy, s: State, bar: Bar)
    requires Credited(s) && LedgersAgree(s) && BooksBalance(config, s)
    ensures Credited(Step(config, strategy, s, bar))
  {
    hide ApplyTrade, LedgersAgree, BooksBalance, Credited, TradeAttribution, SellPnl, Commission, Slippage,
      CreatePending, Complete, Has;
    NoCommissionOnNothing(config);
    var s' := Step(config, strategy, s, bar);
    var t :=
      if s.pendingSignal.Some? && InBacktest(config, bar) then TradeAt(config, s, s.pendingSignal.value, bar) else None;
    if t.None? {
      assert s'.trades == s.trades && s'.entry == s.entry;
      SameCredit(s, s');
    } else {
      TradesAfter(s, t.value);
      var traded := ApplyTrade(s, t.value);
      assert s'.trades == traded.trades && s'.entry == traded.entry;
      if t.value.side == Buy {
        BuyKeepsCredit(config, s, t.value);
      } else {
        SaleIsAttributed(config, s, s.pendingSignal.value, bar);
        SellKeepsCredit(config, s, t.value);
      }
      SameCredit(traded, s');
    }
  }

  lemma TradesAfter(s: State, t: Trade)
    requires t.side == Sell ==> CanSell(s.holding, t.quantity)
    ensures ApplyTrade(s, t).trades == s.trades + [t]
  {
  }

  /** Throughout every run the attributions of the sales sum to the realised profit, but for what was sold while no
      factor had been named. */
  lemma {:induction false} EveryProfitIsCredited(config: Config, strategy: Strategy, bars: seq<Bar>)
    ensures Credited(RunBars(config, strategy, bars))
  {
    hide Step, LedgersAgree, BooksBalance;
    if |bars| > 0 {
      var n := |bars| - 1;
      MoneyIsConserved(config, strategy, bars[..n]);
      EveryProfitIsCredited(config, strategy, bars[..n]);
      StepKeepsCredit(config, strategy, RunBars(config, strategy, bars[..n]), bars[n]);
    }
  }

  /** The equity recorded last is the portfolio's at the last close; before the backtest phase nothing is recorded and
      nothing traded. */
  lemma {:induction false} LastEquity(config: Config, strategy: Strategy, bars: seq<Bar>)
    ensures var s := RunBars(config, strategy, bars);
            && (|bars| > 0 && InBacktest(config, bars[|bars| - 1]) ==>
                  |s.equityCurve| > 0
                  && s.equityCurve[|s.equityCurve| - 1].1 == Equity(s.holding, bars[|bars| - 1].close))
            && ((forall i :: 0 <= i < |bars| ==> !InBacktest(config, bars[i])) ==>
                  s.equityCurve == [] && s.trades == [] && s.entry == None)
  {
    hide TradeAt, Equity, CreatePending, Complete, ApplyTrade;
    if |bars| > 0 {
      LastEquity(config, strategy, bars[..|bars| - 1]);
    }
  }

  /** Adding the open profit to a summary adds it to the factors together, and to "total" where there is one; without
      a factor to credit nothing is added. What goes to a factor called "total" is lost to the sum over the others and
      counted twice under "total". */
  lemma UnrealizedIsCredited(config: Config, summary: Dict, entry: Option<EntryPosition>, price: real)
    ensures var r, attribution := WithUnrealized(config, summary, entry, price), OpenAttribution(config, entry, price);
            var open := if entry.None? || entry.value.totalQty <= 0 || entry.value.weightedFactors == [] then 0.0
                        else Value(price - entry.value.weightedAvgCost, entry.value.totalQty);
            && (Has(r, "total") <==> Has(summary, "total") || Has(attribution, "total"))
            && (Has(r, "total") ==> Get(r, "total") == Get(summary, "total") + open + Get(attribution, "total"))
            && Total(r) - Get(r, "total") == Total(summary) - Get(summary, "total") + open - Get(attribution, "total")
            && (entry.Some? && !Has(entry.value.weightedFactors, "total") ==> !Has(attribution, "total"))
  {
    hide Has, Get, Total, Put, AddAll, TradeAttribution, Value;
    EmptyDict("total");
    if entry.Some? && entry.value.totalQty > 0 {
      var pos := entry.value;
      var open := Value(price - pos.weightedAvgCost, pos.totalQty);
      var attribution := OpenAttribution(config, entry, price);
      if pos.weightedFactors == [] {
        NothingAttributed(open, config.factorWeights);
      }
      AttributionSumsIff(open, pos.weightedFactors, config.factorWeights);
      AttributedNames(open, pos.weightedFactors, config.factorWeights, "total");
      AddAllEffect(summary, attribution, "total");
      var added := AddAll(summary, attribution);
      if !Has(added, "total") {
        AbsentIsZero(added, "total");
      }
      PutEffect(added, "total", Get(added, "total") + Total(attribution), "total");
    }
  }

  lemma NothingAttributed(pnl: real, weights: Option<Dict>)
    ensures TradeAttribution(pnl, [], weights) == []
  {
  }

  lemma ProcessedBars(config: Config, allBars: seq<Bar>)
    requires |Phase(config, allBars, false)| >= config.warmupRequired
    ensures var bars, backtest := BarsToProcess(config, allBars), Phase(config, allBars, true);
            if |backtest| > 0 then |bars| > 0 && bars[|bars| - 1] == backtest[|backtest| - 1]
            else forall i :: 0 <= i < |bars| ==> !InBacktest(config, bars[i])
  {
    hide InBacktest, Phase;
    var bars, backtest := BarsToProcess(config, allBars), Phase(config, allBars, true);
    var warmup := Phase(config, allBars, false);
    if |backtest| > 0 {
      assert bars[|bars| - 1] == backtest[|backtest| - 1];
    } else {
      forall i | 0 <= i < |bars|
        ensures !InBacktest(config, bars[i])
      {
        assert bars[i] == warmup[|warmup| - config.warmupRequired + i];
      }
    }
  }

  /** The profit of shares for which no factor had been named: of those sold, and of those still held at the end. */
  function Uncredited(r: BacktestResult): real {
    var b := Replay(r.trades);
    b.uncredited + if b.named then 0.0 else r.finalEquity - r.finalCash - b.cost
  }

  /** What is attributed to a factor called "total": by the sales, and by the profit still open at the end. */
  function NamedTotal(config: Config, s: State, price: real): real {
    TotalOf(Attributions(s.trades), "total") + Get(OpenAttribution(config, s.entry, price), "total")
  }

  /** In every run the factors, "total" left out, are credited with exactly what the backtest earned - the gain in
      equity plus the entry commission on shares still held - less the profit of shares for which no factor had been
      named, less what a factor called "total" was given. When every purchase names a factor the former is nothing,
      and when none names "total" the latter is. */
  lemma AttributionIsProfit(config: Config, strategy: Strategy, allBars: seq<Bar>)
    requires RunBacktest(config, strategy, allBars).Success?
    ensures var r := RunBacktest(config, strategy, allBars).value;
            var s := RunBars(config, strategy, BarsToProcess(config, allBars));
            var price := FinalPrice(config, Phase(config, allBars, true));
            var earned := r.finalEquity - config.initialCapital + Replay(r.trades).commission;
            var lost := NamedTotal(config, s, price);
            && Total(r.attributionSummary) - Get(r.attributionSummary, "total") == earned - Uncredited(r) - lost
            && (Has(r.attributionSummary, "total") ==>
                  Get(r.attributionSummary, "total")
                  == earned - Uncredited(r) + Get(OpenAttribution(config, s.entry, price), "total"))
            && (BuysNameFactors(r.trades) ==> Uncredited(r) == 0.0)
            && (NoneNamedTotal(r.trades) ==>
                  lost == 0.0 && Get(OpenAttribution(config, s.entry, price), "total") == 0.0)
  {
    hide RunBars, BarsToProcess, BuysNameFactors, NoneNamedTotal, Value, Summary, WithUnrealized, Get, Has, Total,
      Replay, GrandTotal, TotalOf, InBacktest, Attributions, OpenAttribution;
    var bars, backtest := BarsToProcess(config, allBars), Phase(config, allBars, true);
    var s := RunBars(config, strategy, bars);
    var r := RunBacktest(config, strategy, allBars).value;
    assert r == ResultOf(config, s, backtest);
    ProcessedBars(config, allBars);
    LastEquity(config, strategy, bars);
    MoneyIsConserved(config, strategy, bars);
    EveryProfitIsCredited(config, strategy, bars);
    var summary := Summary(Attributions(s.trades));
    SummaryMeans(Attributions(s.trades), "total");
    EmptyDict("total");
    var price := FinalPrice(config, backtest);
    if |backtest| > 0 {
      assert r.finalEquity == Equity(s.holding, price);
    } else {
      assert s.trades == [] && r.finalEquity == config.initialCapital;
      EmptyBook();
      NothingHeld(price, 0.0);
    }
    FinalBalance(config, s, price, summary);
  }

  /** The end of a run: what is credited, what is open and what is lost make up the equity. */
  lemma FinalBalance(config: Config, s: State, price: real, summary: Dict)
    requires LedgersAgree(s) && BooksBalance(config, s) && Credited(s)
    requires Total(summary) - Get(summary, "total")
             == GrandTotal(Attributions(s.trades)) - TotalOf(Attributions(s.trades), "total")
    requires Get(summary, "total") == GrandTotal(Attributions(s.trades))
    ensures var b, final := Replay(s.trades), WithUnrealized(config, summary, s.entry, price);
            var open := Equity(s.holding, price) - s.holding.cash - b.cost;
            var credited := b.realised + open - b.uncredited - (if b.named then 0.0 else open);
            var openTotal := Get(OpenAttribution(config, s.entry, price), "total");
            && credited == Equity(s.holding, price) - config.initialCapital + b.commission
                           - b.uncredited - (if b.named then 0.0 else open)
            && Total(final) - Get(final, "total") == credited - NamedTotal(config, s, price)
            && (Has(final, "total") ==> Get(final, "total") == credited + openTotal)
            && (BuysNameFactors(s.trades) && !b.named ==> open == 0.0)
            && (NoneNamedTotal(s.trades) ==> NamedTotal(config, s, price) == 0.0 && openTotal == 0.0)
  {
    hide Value, WithUnrealized, Get, Has, Total, Replay, GrandTotal, TotalOf, Attributions, BuysNameFactors,
      NoneNamedTotal, TradeAttribution;
    UnrealizedIsCredited(config, summary, s.entry, price);
    NothingHeld(price, 0.0);
    EmptyDict("total");
    if !Has(summary, "total") {
      AbsentIsZero(summary, "total");
    }
    var attribution := OpenAttribution(config, s.entry, price);
    if !Has(attribution, "total") {
      AbsentIsZero(attribution, "total");
    }
    if s.entry.Some? {
      var pos := s.entry.value;
      ValueOfDifference(price, pos.weightedAvgCost, pos.totalQty);
      NothingHeld(pos.weightedAvgCost, 0.0);
    }
  }

  /** A single sale whose only factor is called "total": its whole profit is missing from the sum over the factors. */
  lemma SaleUnderTotalIsLost(pnl: real, weights: Option<Dict>)
    requires pnl != 0.0
    ensures var summary := Summary([TradeAttribution(pnl, [Entry("total", 1.0)], weights)]);
            Total(summary) - Get(summary, "total") == 0.0 && Get(summary, "total") == pnl
  {
    hide Share, EqualShare, WeightOf, WeightSum, Shares, Summary, TotalOf, GrandTotal;
    var attribution := TradeAttribution(pnl, [Entry("total", 1.0)], weights);
    AttributionSumsIff(pnl, [Entry("total", 1.0)], weights);
    assert |attribution| == 1 && attribution[0].name == "total";
    SummaryMeans([attribution], "total");
    OneAttribution(attribution);
  }

  lemma OneAttribution(attribution: Dict)
    ensures GrandTotal([attribution]) == Total(attribution)
    ensures TotalOf([attribution], "total") == Get(attribution, "total")
    ensures |attribution| == 1 && attribution[0].name == "total" ==> Get(attribution, "total") == Total(attribution)
  {
    assert [attribution][..0] == [];
  }

  lemma EmptyBook()
    ensures Replay([]) == Book(0, 0.0, 0.0, 0.0, false, 0.0)
  {
  }

  // --------------------------------------------------------------------------------------------
  // Cash
  // --------------------------------------------------------------------------------------------

  lemma Slipped(price: real, slippage: real, quantity: nat)
    ensures Value(price + slippage, quantity) == Value(price, quantity) + Value(slippage, quantity)
  {
  }

  /** Cash is checked at the open, before slippage: a purchase can overdraw it by the slippage and no more, and it does
      so exactly when the same check at the fill price would have refused the purchase. */
  lemma BuyOverdraw(config: Config, s: State, signal: Signal, bar: Bar)
    requires signal.action == Buy && TradeAt(config, s, signal, bar).Some?
    ensures var t := TradeAt(config, s, signal, bar).value;
            var after := ApplyTrade(s, t).holding;
            && after.cash >= -Value(t.slippage, t.quantity)
            && (after.cash >= 0.0 <==> CanBuy(s.holding, t.FillPrice(), t.quantity, t.commission))
  {
    hide Value, WeightedAverage, WeighFactors, Commission, Slippage;
    Slipped(bar.open, Slippage(config, bar.open), signal.quantity);
  }

  /** A purchase that leaves the cash negative: 100 buys one share at 100, and 5 basis points of slippage are owed. */
  lemma CashCanGoNegative()
    ensures var config := Config(0, 100.0, 5, 0.0, None, 0);
            var signal, bar := Signal(Buy, 1, 0, "", []), Bar(1, 100.0, 100.0, 100.0, 100.0, 0);
            var t := TradeAt(config, Start(config), signal, bar);
            t.Some? && ApplyTrade(Start(config), t.value).holding.cash < 0.0
  {
  }

  /** A sale leaves the cash non-negative exactly when cash and proceeds cover its commission; nothing checks that. */
  lemma SellOverdraw(config: Config, s: State, signal: Signal, bar: Bar)
    requires signal.action == Sell && TradeAt(config, s, signal, bar).Some?
    ensures var t := TradeAt(config, s, signal, bar).value;
            ApplyTrade(s, t).holding.cash >= 0.0 <==> s.holding.cash + Value(t.FillPrice(), t.quantity) >= t.commission
  {
    hide Value, Commission, Slippage, SellPnl, TradeAttribution, TrackSell;
  }

  /** A second way below zero, without slippage: of 3, one share at 1 with a commission of 2 leaves nothing, and the
      sale at 1 again costs 2. */
  lemma SaleCanOverdraw()
    ensures var config := Config(0, 3.0, 0, 2.0, None, 0);
            var bar := Bar(1, 1.0, 1.0, 1.0, 1.0, 0);
            var buy := TradeAt(config, Start(config), Signal(Buy, 1, 0, "", []), bar);
            && buy.Some?
            && var bought := ApplyTrade(Start(config), buy.value);
               var sell := TradeAt(config, bought, Signal(Sell, 1, 1, "", []), bar);
               bought.holding.cash == 0.0 && sell.Some? && ApplyTrade(bought, sell.value).holding.cash == -1.0
  {
    hide WeightedAverage, WeighFactors, SellPnl, TradeAttribution, TrackSell;
  }

  /** The pending signal, if it is filled at this bar, is paid for: a purchase at the fill price and not only at the
      open, a sale's commission out of cash and proceeds. */
  predicate Covered(config: Config, s: State, bar: Bar) {
    s.pendingSignal.Some? && InBacktest(config, bar) ==>
      var t := TradeAt(config, s, s.pendingSignal.value, bar);
      t.Some? ==>
        if t.value.side == Buy then CanBuy(s.holding, t.value.FillPrice(), t.value.quantity, t.value.commission)
        else s.holding.cash + Value(t.value.FillPrice(), t.value.quantity) >= t.value.commission
  }

  lemma StepCashIff(config: Config, strategy: Strategy, s: State, bar: Bar)
    requires s.holding.cash >= 0.0
    ensures Step(config, strategy, s, bar).holding.cash >= 0.0 <==> Covered(config, s, bar)
  {
    hide TradeAt, ApplyTrade, CreatePending, Complete, Equity, CanBuy, Value;
    if s.pendingSignal.Some? && TradeAt(config, s, s.pendingSignal.value, bar).Some? {
      if s.pendingSignal.value.action == Buy {
        BuyOverdraw(config, s, s.pendingSignal.value, bar);
      } else {
        SellOverdraw(config, s, s.pendingSignal.value, bar);
      }
    }
  }

  /** Cash is non-negative after every bar of the run. */
  predicate NeverOverdrawn(config: Config, strategy: Strategy, bars: seq<Bar>) {
    RunBars(config, strategy, bars).holding.cash >= 0.0
    && (|bars| > 0 ==> NeverOverdrawn(config, strategy, bars[..|bars| - 1]))
  }

  /** Every trade of the run is paid for. */
  predicate AlwaysCovered(config: Config, strategy: Strategy, bars: seq<Bar>) {
    forall k :: 0 <= k < |bars| ==> Covered(config, RunBars(config, strategy, bars[..k]), bars[k])
  }

  lemma AlwaysCoveredExtends(config: Config, strategy: Strategy, bars: seq<Bar>)
    requires |bars| > 0
    ensures var n := |bars| - 1;
            AlwaysCovered(config, strategy, bars) <==>
            AlwaysCovered(config, strategy, bars[..n]) && Covered(config, RunBars(config, strategy, bars[..n]), bars[n])
  {
    hide RunBars, Covered;
    var n := |bars| - 1;
    assert forall k :: 0 <= k < n ==> bars[..n][..k] == bars[..k] && bars[..n][k] == bars[k];
  }

  /** The documented "cash >= 0" holds throughout a run exactly when the capital is not negative and every trade is
      paid for. */
  lemma {:induction false} CashNonNegativeIff(config: Config, strategy: Strategy, bars: seq<Bar>)
    ensures NeverOverdrawn(config, strategy, bars)
       <==> config.initialCapital >= 0.0 && AlwaysCovered(config, strategy, bars)
  {
    assert |bars| == 0 ==> AlwaysCovered(config, strategy, bars);
    hide Step, AlwaysCovered, Covered;
    if |bars| > 0 {
      var n := |bars| - 1;
      CashNonNegativeIff(config, strategy, bars[..n]);
      AlwaysCoveredExtends(config, strategy, bars);
      if NeverOverdrawn(config, strategy, bars[..n]) {
        StepCashIff(config, strategy, RunBars(config, strategy, bars[..n]), bars[n]);
      }
    }
  }

  lemma SaleBringsCash(config: Config, price: real, quantity: nat)
    requires price >= config.commissionPerShare
    ensures Value(price, quantity) >= Commission(config, quantity)
  {
  }

  lemma ZeroSlippage(config: Config, price: real, quantity: nat)
    requires config.slippageBps == 0
    ensures Slippage(config, price) == 0.0 && Value(0.0, quantity) == 0.0
  {
  }

  lemma CheapCommissionsCover(config: Config, s: State, bar: Bar)
    requires config.slippageBps == 0 && s.holding.cash >= 0.0 && bar.open >= config.commissionPerShare
    ensures Covered(config, s, bar)
  {
    hide Value, Slippage, Commission, SellPnl, TradeAttribution;
    if s.pendingSignal.Some? {
      ZeroSlippage(config, bar.open, s.pendingSignal.value.quantity);
      SaleBringsCash(config, bar.open, s.pendingSignal.value.quantity);
    }
  }

  /** So without slippage, and with commissions below prices, cash never goes negative. */
  lemma {:induction false} CashStaysNonNegative(config: Config, strategy: Strategy, bars: seq<Bar>)
    requires config.slippageBps == 0 && config.initialCapital >= 0.0
    requires forall i :: 0 <= i < |bars| ==> bars[i].open >= config.commissionPerShare
    ensures NeverOverdrawn(config, strategy, bars)
  {
    hide Step, AlwaysCovered, Covered;
    if |bars| > 0 {
      var n := |bars| - 1;
      CashStaysNonNegative(config, strategy, bars[..n]);
      CheapCommissionsCover(config, RunBars(config, strategy, bars[..n]), bars[n]);
      StepCashIff(config, strategy, RunBars(config, strategy, bars[..n]), bars[n]);
    }
  }
}
