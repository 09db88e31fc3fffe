/**
  What the position ledger keeps over every run of fills: profit, cost basis and cash balance, per account, per
  symbol and per strategy. (backend/src/core/portfolio.py)
 */
module LedgerConservation {
  import opened Common
  import opened RealSums
  import opened FillLedger
  import opened PortfolioManagement

  /** The filter that `get_positions` and `get_transactions` take. */
  datatype Scope = Scope(account: string, symbol: Option<string>, strategy: Option<string>)

  predicate Within(account: string, symbol: string, strategy: Option<string>, sc: Scope) {
    && account == sc.account
    && (sc.symbol.Some? ==> symbol == sc.symbol.value)
    && (sc.strategy.Some? ==> strategy == sc.strategy)
  }

  predicate RowIn(row: Row, sc: Scope) {
    Within(row.account, row.symbol, row.strategy, sc)
  }

  predicate TransactionIn(t: Transaction, sc: Scope) {
    Within(t.account, t.symbol, t.strategy, sc)
  }

  /** `price * quantity * multiplier`. */
  function Amount(price: real, quantity: int, asset: AssetType): real {
    price * quantity as real * Multiplier(asset)
  }

  function BasisIn(sc: Scope): Row -> real {
    (row: Row) => if RowIn(row, sc) then Amount(row.avgCost, row.quantity, row.asset) else 0.0
  }

  function QuantityIn(sc: Scope): Row -> real {
    (row: Row) => if RowIn(row, sc) then row.quantity as real else 0.0
  }

  function ValueIn(sc: Scope, mark: Row -> real): Row -> real {
    (row: Row) => if RowIn(row, sc) then Amount(mark(row), row.quantity, row.asset) else 0.0
  }

  function UnrealizedIn(sc: Scope, mark: Row -> real): Row -> real {
    (row: Row) => if RowIn(row, sc) then Profit(mark(row), row.avgCost, row.quantity, Multiplier(row.asset)) else 0.0
  }

  function ProfitIn(sc: Scope): Transaction -> real {
    (t: Transaction) => if TransactionIn(t, sc) then t.realizedPnl else 0.0
  }

  /** Cash paid for a transaction; `assets` says which kind of contract each symbol is. */
  function CashIn(sc: Scope, assets: string -> AssetType): Transaction -> real {
    (t: Transaction) =>
      if TransactionIn(t, sc) then Amount(t.price, Signed(t.side, t.quantity), assets(t.symbol)) else 0.0
  }

  function FilledIn(sc: Scope): Transaction -> real {
    (t: Transaction) => if TransactionIn(t, sc) then Signed(t.side, t.quantity) as real else 0.0
  }

  ghost predicate AssetsAgree(rows: seq<Row>, assets: string -> AssetType) {
    forall i :: 0 <= i < |rows| ==> rows[i].asset == assets(rows[i].symbol)
  }

  /** Realised profit is cost basis still held less net cash paid, and the quantity held is the net quantity filled. */
  ghost predicate Balanced(b: Book, sc: Scope, assets: string -> AssetType) {
    && Total(b.transactions, ProfitIn(sc)) == Total(b.rows, BasisIn(sc)) - Total(b.transactions, CashIn(sc, assets))
    && Total(b.rows, QuantityIn(sc)) == Total(b.transactions, FilledIn(sc))
  }

  /** The fill settles against a row under the scope, but its transaction lies outside: it names no strategy and finds
      the row of one. */
  predicate Estranged(b: Book, f: Fill, sc: Scope) {
    f.quantity > 0 && match Find(b.rows, f)
                      case At(i) => RowIn(b.rows[i], sc) && !Within(f.account, f.symbol, f.strategy, sc)
                      case _ => false
  }

  function HoldingAmount(h: Option<Holding>, asset: AssetType): real {
    if h.None? then 0.0 else Amount(h.value.avgCost, h.value.quantity, asset)
  }

  lemma SettleAmounts(h: Option<Holding>, d: int, price: real, asset: AssetType)
    ensures var s := Settle(h, d, price);
            HoldingAmount(s.holding, asset)
            == HoldingAmount(h, asset) + Amount(price, d, asset) + Realized(s.pnl, asset)
  {
    hide Settle;
    var s := Settle(h, d, price);
    SettleBalances(h, d, price);
    Multiply(Basis(s.holding), Basis(h), price * d as real, s.pnl, Multiplier(asset));
  }

  lemma Multiply(a: real, b: real, c: real, d: real, m: real)
    requires a == b + c + d
    ensures a * m == b * m + c * m + d * m
    ensures 0.0 * m == 0.0
  {
  }

  /** Replacing or removing the row at `i` changes a total by the row's own change. */
  lemma StoredTotal(rows: seq<Row>, i: nat, h: Option<Holding>, g: Row -> real)
    requires i < |rows|
    ensures Total(Stored(rows, i, h), g)
            == Total(rows, g) - g(rows[i])
               + (if h.None? then 0.0 else g(rows[i].(quantity := h.value.quantity, avgCost := h.value.avgCost)))
  {
    match h
    case None =>
      TotalRemove(rows, i, g);
    case Some(Holding(q, avg)) =>
      TotalUpdate(rows, i, rows[i].(quantity := q, avgCost := avg), g);
  }

  /** How far a scope's tables are apart: cost basis held beyond what profit and cash account for, and quantity held
      beyond what was filled. */
  datatype Drift = Drift(basis: real, quantity: real)

  ghost function DriftOf(b: Book, sc: Scope, assets: string -> AssetType): Drift {
    Drift(Total(b.rows, BasisIn(sc)) - Total(b.transactions, CashIn(sc, assets)) - Total(b.transactions, ProfitIn(sc)),
          Total(b.rows, QuantityIn(sc)) - Total(b.transactions, FilledIn(sc)))
  }

  lemma BalancedIff(b: Book, sc: Scope, assets: string -> AssetType)
    ensures Balanced(b, sc, assets) <==> DriftOf(b, sc, assets) == Drift(0.0, 0.0)
  {
  }

  /** What one fill moves into the scope's rows without a transaction under the scope. */
  function Stray(b: Book, f: Fill, sc: Scope): Drift {
    if !Estranged(b, f, sc) then Drift(0.0, 0.0)
    else
      var d, row := Signed(f.side, f.quantity), b.rows[Find(b.rows, f).index];
      Drift(Amount(f.price, d, f.asset) + Realized(Settle(Some(HoldingOf(row)), d, f.price).pnl, f.asset), d as real)
  }

  lemma Unfilled(price: real, asset: AssetType)
    ensures Amount(price, 0, asset) == 0.0
  {
  }

  lemma NothingSettles(h: Holding, price: real)
    ensures Settle(Some(h), 0, price).pnl == 0.0
  {
    hide Blend;
  }

  lemma NoProfit(asset: AssetType)
    ensures Realized(0.0, asset) == 0.0
  {
  }

  /** Recording one fill moves the two tables of a scope apart by exactly what the fill is estranged by. */
  lemma {:induction false} RecordDrifts(b: Book, f: Fill, sc: Scope, assets: string -> AssetType)
    requires Record(b, f).Success?
    requires AssetsAgree(b.rows, assets) && f.asset == assets(f.symbol)
    ensures AssetsAgree(Record(b, f).value.rows, assets)
    ensures var before, after := DriftOf(b, sc, assets), DriftOf(Record(b, f).value, sc, assets);
            var stray := Stray(b, f, sc);
            after == Drift(before.basis + stray.basis, before.quantity + stray.quantity)
  {
    hide Total, Settle, Amount, Realized;
    var b' := Record(b, f).value;
    var t := b'.transactions[|b.transactions|];
    assert b'.transactions == b.transactions + [t];
    TotalAppend(b.transactions, t, ProfitIn(sc));
    TotalAppend(b.transactions, t, CashIn(sc, assets));
    TotalAppend(b.transactions, t, FilledIn(sc));
    var d := Signed(f.side, f.quantity);
    match Find(b.rows, f)
    case Missing =>
      TotalAppend(b.rows, NewRow(f), BasisIn(sc));
      TotalAppend(b.rows, NewRow(f), QuantityIn(sc));
      assert Within(f.account, f.symbol, f.strategy, sc) ==> ProfitIn(sc)(t) == 0.0;
    case At(i) =>
      var h := HoldingOf(b.rows[i]);
      var s := Settle(Some(h), d, f.price);
      SettleAmounts(Some(h), d, f.price, f.asset);
      SettleBalances(Some(h), d, f.price);
      StoredTotal(b.rows, i, s.holding, BasisIn(sc));
      StoredTotal(b.rows, i, s.holding, QuantityIn(sc));
      assert b'.rows == Stored(b.rows, i, s.holding);
      if f.quantity == 0 {
        Unfilled(f.price, f.asset);
        NothingSettles(h, f.price);
        NoProfit(f.asset);
      }
  }

  /** A balance - per account, symbol or strategy - survives a fill exactly when the fill is not estranged from it. */
  lemma {:induction false} RecordKeepsBalanceIff(b: Book, f: Fill, sc: Scope, assets: string -> AssetType)
    requires Record(b, f).Success?
    requires AssetsAgree(b.rows, assets) && f.asset == assets(f.symbol)
    requires Balanced(b, sc, assets)
    ensures AssetsAgree(Record(b, f).value.rows, assets)
    ensures Balanced(Record(b, f).value, sc, assets) <==> !Estranged(b, f, sc)
  {
    hide Record, Balanced, DriftOf, AssetsAgree, Settle, Amount, Realized;
    RecordDrifts(b, f, sc, assets);
    BalancedIff(b, sc, assets);
    BalancedIff(Record(b, f).value, sc, assets);
  }

  /** A run of fills; one whose lookup is ambiguous raises and records nothing. */
  function RecordAll(b: Book, fills: seq<Fill>): Book {
    if |fills| == 0 then b
    else
      var before := RecordAll(b, fills[..|fills| - 1]);
      match Record(before, fills[|fills| - 1])
      case Success(after) => after
      case Failure(_) => before
  }

  /** The sum of what the fills of a run stray by, each against the tables it meets. */
  function StrayAll(b: Book, fills: seq<Fill>, sc: Scope): Drift {
    if |fills| == 0 then Drift(0.0, 0.0)
    else
      var n := |fills| - 1;
      var strayed, before := StrayAll(b, fills[..n], sc), RecordAll(b, fills[..n]);
      if Record(before, fills[n]).Failure? then strayed
      else
        var stray := Stray(before, fills[n], sc);
        Drift(strayed.basis + stray.basis, strayed.quantity + stray.quantity)
  }

  /** Over every run from empty tables, through all open, add, reduce, close and flip branches: realised profit is
      cost basis held less net cash paid, and quantity held is the net signed fill, but for exactly what estranged
      fills have moved. */
  lemma {:induction false} RunDrifts(fills: seq<Fill>, sc: Scope, assets: string -> AssetType)
    requires forall i :: 0 <= i < |fills| ==> fills[i].asset == assets(fills[i].symbol)
    ensures AssetsAgree(RecordAll(EmptyBook, fills).rows, assets)
    ensures DriftOf(RecordAll(EmptyBook, fills), sc, assets) == StrayAll(EmptyBook, fills, sc)
  {
    hide Record, Stray;
    if |fills| > 0 {
      var n := |fills| - 1;
      RunDrifts(fills[..n], sc, assets);
      var before := RecordAll(EmptyBook, fills[..n]);
      if Record(before, fills[n]).Success? {
        RecordDrifts(before, fills[n], sc, assets);
      }
    }
  }

  /** So conservation holds after a run exactly when what its estranged fills moved comes to nothing. */
  lemma {:induction false} ProfitConservedIff(fills: seq<Fill>, sc: Scope, assets: string -> AssetType)
    requires forall i :: 0 <= i < |fills| ==> fills[i].asset == assets(fills[i].symbol)
    ensures Balanced(RecordAll(EmptyBook, fills), sc, assets) <==> StrayAll(EmptyBook, fills, sc) == Drift(0.0, 0.0)
  {
    hide RecordAll, StrayAll, Balanced, DriftOf;
    RunDrifts(fills, sc, assets);
    BalancedIff(RecordAll(EmptyBook, fills), sc, assets);
  }

  /** No fill of the run is estranged from the scope when its turn comes. */
  predicate NoneEstranged(b: Book, fills: seq<Fill>, sc: Scope) {
    forall i :: 0 <= i < |fills| ==> !Estranged(RecordAll(b, fills[..i]), fills[i], sc)
  }

  lemma {:induction false} NoneStray(b: Book, fills: seq<Fill>, sc: Scope)
    requires NoneEstranged(b, fills, sc)
    ensures StrayAll(b, fills, sc) == Drift(0.0, 0.0)
  {
    hide Record, Estranged;
    if |fills| > 0 {
      var n := |fills| - 1;
      assert !Estranged(RecordAll(b, fills[..n]), fills[n], sc);
      assert forall i :: 0 <= i < n ==> fills[..n][..i] == fills[..i] && fills[..n][i] == fills[i];
      NoneStray(b, fills[..n], sc);
    }
  }

  /** A scope that covers all strategies is estranged from nothing, and so is any scope from a fill that names a
      strategy. */
  lemma NeverEstranged(b: Book, f: Fill, sc: Scope)
    requires sc.strategy.None? || f.strategy.Some?
    ensures !Estranged(b, f, sc)
  {
  }

  /** Conservation in every account and symbol whatever the fills, and in every strategy that no fill is estranged
      from. */
  lemma {:induction false} ProfitConserved(fills: seq<Fill>, sc: Scope, assets: string -> AssetType)
    requires forall i :: 0 <= i < |fills| ==> fills[i].asset == assets(fills[i].symbol)
    requires sc.strategy.None? || NoneEstranged(EmptyBook, fills, sc)
    ensures Balanced(RecordAll(EmptyBook, fills), sc, assets)
  {
    hide RecordAll, StrayAll, Balanced, Estranged;
    forall i | 0 <= i < |fills|
      ensures !Estranged(RecordAll(EmptyBook, fills[..i]), fills[i], sc)
    {
      if sc.strategy.None? {
        NeverEstranged(RecordAll(EmptyBook, fills[..i]), fills[i], sc);
      }
    }
    NoneStray(EmptyBook, fills, sc);
    ProfitConservedIff(fills, sc, assets);
  }

  /** Realised plus unrealised profit at any marks is market value less net cash paid, and less what has strayed into
      the cost basis. */
  lemma {:induction false} TotalProfitIsValueLessCash(fills: seq<Fill>, sc: Scope, assets: string -> AssetType,
                                                      mark: Row -> real)
    requires forall i :: 0 <= i < |fills| ==> fills[i].asset == assets(fills[i].symbol)
    ensures var b := RecordAll(EmptyBook, fills);
            Total(b.transactions, ProfitIn(sc)) + Total(b.rows, UnrealizedIn(sc, mark))
            == Total(b.rows, ValueIn(sc, mark)) - Total(b.transactions, CashIn(sc, assets))
               - StrayAll(EmptyBook, fills, sc).basis
  {
    hide Total, Amount, Profit, RecordAll, StrayAll;
    RunDrifts(fills, sc, assets);
    var rows := RecordAll(EmptyBook, fills).rows;
    forall i | 0 <= i < |rows|
      ensures ValueIn(sc, mark)(rows[i]) == UnrealizedIn(sc, mark)(rows[i]) + BasisIn(sc)(rows[i])
    {
      MarkToMarket(mark(rows[i]), rows[i].avgCost, rows[i].quantity, rows[i].asset);
    }
    TotalPointwise(rows, ValueIn(sc, mark), UnrealizedIn(sc, mark), BasisIn(sc));
  }

  lemma MarkToMarket(mark: real, avg: real, quantity: int, asset: AssetType)
    ensures Amount(mark, quantity, asset)
         == Profit(mark, avg, quantity, Multiplier(asset)) + Amount(avg, quantity, asset)
  {
    var q, m := quantity as real, Multiplier(asset);
    assert (mark - avg) * q == mark * q - avg * q;
  }

  // --------------------------------------------------------------------------------------------
  // Reading profit back
  // --------------------------------------------------------------------------------------------

  /** Rows or transactions under a scope, in order. */
  function Select<T>(s: seq<T>, p: T -> bool): seq<T> {
    if |s| == 0 then []
    else Select(s[..|s| - 1], p) + (if p(s[|s| - 1]) then [s[|s| - 1]] else [])
  }

  lemma {:induction false} SelectTotal<T>(s: seq<T>, p: T -> bool, g: T -> real, h: T -> real)
    requires forall x: T :: x in s ==> h(x) == if p(x) then g(x) else 0.0
    ensures Total(Select(s, p), g) == Total(s, h)
  {
    hide Total;
    if |s| == 0 {
      EmptyTotal(g);
      EmptyTotal(h);
      assert s == [];
    } else {
      var n := |s| - 1;
      assert s == s[..n] + [s[n]];
      SelectTotal(s[..n], p, g, h);
      TotalAppend(s[..n], s[n], h);
      TotalAppend(Select(s[..n], p), s[n], g);
      assert Select(s[..n], p) + [] == Select(s[..n], p);
    }
  }

  lemma EmptyTotal<T>(g: T -> real)
    ensures Total([], g) == 0.0
  {
  }

  /** The newest `limit` transactions under a scope: the query orders by execution time, newest first, and stops. */
  function GetTransactions(log: seq<Transaction>, sc: Scope, limit: nat): seq<Transaction> {
    var all := Select(log, (t: Transaction) => TransactionIn(t, sc));
    if |all| <= limit then all else all[|all| - limit..]
  }

  function CalculateRealizedPnl(log: seq<Transaction>, sc: Scope): real {
    Total(GetTransactions(log, sc, TRANSACTION_LIMIT), (t: Transaction) => t.realizedPnl)
  }

  /** The reported figure is the ledger's own realised profit as long as no more transactions than the limit are
      under the scope; in general the older ones are missing from it. */
  lemma RealizedPnlUpToLimit(log: seq<Transaction>, sc: Scope)
    ensures var all := Select(log, (t: Transaction) => TransactionIn(t, sc));
            var dropped := if |all| <= TRANSACTION_LIMIT then [] else all[..|all| - TRANSACTION_LIMIT];
            CalculateRealizedPnl(log, sc)
            == Total(log, ProfitIn(sc)) - Total(dropped, (t: Transaction) => t.realizedPnl)
  {
    hide Total;
    var p := (t: Transaction) => TransactionIn(t, sc);
    var g := (t: Transaction) => t.realizedPnl;
    var all := Select(log, p);
    SelectTotal(log, p, g, ProfitIn(sc));
    EmptyTotal(g);
    if |all| > TRANSACTION_LIMIT {
      var n := |all| - TRANSACTION_LIMIT;
      TotalConcat(all[..n], all[n..], g);
      assert all[..n] + all[n..] == all;
    }
  }

  /** The price used for a row: the live quote when there is a quote store that has one, else the stored price. */
  function MarkOf(row: Row, quotes: Option<map<string, real>>): real {
    if quotes.Some? && row.symbol in quotes.value then quotes.value[row.symbol] else row.currentPrice
  }

  method CalculateUnrealizedPnl(rows: seq<Row>, sc: Scope, quotes: Option<map<string, real>>) returns (totalPnl: real)
    ensures totalPnl == Total(rows, UnrealizedIn(sc, (row: Row) => MarkOf(row, quotes)))
  {
    hide Total, Profit;
    var mark := (row: Row) => MarkOf(row, quotes);
    var p := (row: Row) => RowIn(row, sc);
    ghost var g := (row: Row) => Profit(mark(row), row.avgCost, row.quantity, Multiplier(row.asset));
    var positions := Select(rows, p);
    totalPnl := 0.0;
    EmptyTotal(g);
    var i := 0;
    while i < |positions|
      invariant 0 <= i <= |positions|
      invariant totalPnl == Total(positions[..i], g)
    {
      var pos := positions[i];
      var currentPrice := MarkOf(pos, quotes);
      var pnl := Profit(currentPrice, pos.avgCost, pos.quantity, Multiplier(pos.asset));
      totalPnl := totalPnl + pnl;
      TotalAppend(positions[..i], pos, g);
      assert positions[..i + 1] == positions[..i] + [pos];
      i := i + 1;
    }
    assert positions[..i] == positions;
    SelectTotal(rows, p, g, UnrealizedIn(sc, mark));
  }

  // --------------------------------------------------------------------------------------------
  // Where the promises stop
  // --------------------------------------------------------------------------------------------

  /** A share bought under a strategy and sold by a fill that names none: the profit is booked outside the strategy,
      whose own balance then fails. */
  lemma StrategylessCloseLeavesTheStrategy(account: string, symbol: string, strategy: string,
                                           assets: string -> AssetType)
    requires assets(symbol) == Stock
    ensures var open := Fill(account, symbol, Some(strategy), Stock, Buy, 1, 10.0);
            var close := Fill(account, symbol, None, Stock, Sell, 1, 15.0);
            var b := RecordAll(EmptyBook, [open, close]);
            && !Balanced(b, Scope(account, None, Some(strategy)), assets)
            && Balanced(b, Scope(account, None, None), assets)
  {
    hide RecordAll, Balanced;
    var open := Fill(account, symbol, Some(strategy), Stock, Buy, 1, 10.0);
    var close := Fill(account, symbol, None, Stock, Sell, 1, 15.0);
    RoundTrip(open, close, 5.0);
    PairDrifts(TransactionOf(open, 0.0), TransactionOf(close, 5.0), Scope(account, None, Some(strategy)), assets);
    ProfitConserved([open, close], Scope(account, None, None), assets);
  }

  /** One share bought under a strategy and sold under none is missing from the strategy's transactions. */
  lemma PairDrifts(bought: Transaction, sold: Transaction, sc: Scope, assets: string -> AssetType)
    requires TransactionIn(bought, sc) && !TransactionIn(sold, sc)
    requires bought.side == Buy && bought.quantity == 1
    ensures !Balanced(Book([], [bought, sold]), sc, assets)
  {
    hide Total, Amount;
    PairTotal(bought, sold, FilledIn(sc));
    EmptyTotal(QuantityIn(sc));
  }

  /** From empty tables, one buy and one sell of a single share that finds its row. */
  lemma RoundTrip(open: Fill, close: Fill, gain: real)
    requires open.side == Buy && open.quantity == 1 && close.side == Sell && close.quantity == 1
    requires open.asset == close.asset == Stock && close.price == open.price + gain
    requires Matches(NewRow(open), close)
    ensures RecordAll(EmptyBook, [open, close]) == Book([], [TransactionOf(open, 0.0), TransactionOf(close, gain)])
  {
    hide Record;
    var row := NewRow(open);
    var first, second := TransactionOf(open, 0.0), TransactionOf(close, gain);
    assert Record(EmptyBook, open) == Success(Book([row], [first])) by {
      RecordOpens([], [], open);
      assert [] + [row] == [row] && [] + [first] == [first];
    }
    assert Record(Book([row], [first]), close) == Success(Book([], [first, second])) by {
      RecordCloses(row, [first], close, gain);
      assert [first] + [second] == [first, second];
    }
    assert [open, close][..1] == [open] && [open][..0] == [];
    assert RecordAll(EmptyBook, []) == EmptyBook;
    assert RecordAll(EmptyBook, [open]) == Book([row], [first]);
  }

  lemma RecordOpens(rows: seq<Row>, log: seq<Transaction>, f: Fill)
    requires Find(rows, f).Missing?
    ensures Record(Book(rows, log), f) == Success(Book(rows + [NewRow(f)], log + [TransactionOf(f, 0.0)]))
  {
  }

  lemma RecordCloses(row: Row, log: seq<Transaction>, f: Fill, gain: real)
    requires Matches(row, f) && row.quantity == 1 && f.side == Sell && f.quantity == 1 && f.asset == Stock
    requires gain == f.price - row.avgCost
    ensures Record(Book([row], log), f) == Success(Book([], log + [TransactionOf(f, gain)]))
  {
    hide Settle, Realized;
    assert Find([row], f) == At(0);
    assert Remove([row], 0) == [];
    SellProfit(1, row.avgCost, 1, f.price, 1, Stock);
    assert Profit(f.price, row.avgCost, 1, 1.0) == gain;
  }

  lemma RecordAdds(row: Row, log: seq<Transaction>, f: Fill)
    requires Matches(row, f) && row.quantity > 0 && f.side == Buy && f.quantity > 0 && row.avgCost == f.price
    ensures Record(Book([row], log), f)
            == Success(Book([row.(quantity := row.quantity + f.quantity)], log + [TransactionOf(f, 0.0)]))
  {
    hide Settle;
    assert Find([row], f) == At(0);
    AddAtSamePrice(row.quantity, f.quantity, f.price);
    var grown := row.(quantity := row.quantity + f.quantity);
    assert HoldingOf(row) == Holding(row.quantity, f.price);
    assert [row][0 := row.(quantity := row.quantity + f.quantity, avgCost := f.price)] == [grown];
    assert Realized(0.0, f.asset) == 0.0;
  }

  lemma PairTotal(s: Transaction, t: Transaction, g: Transaction -> real)
    ensures Total([s, t], g) == g(s) + g(t)
  {
    TotalSingle(s, g);
    TotalAppend([s], t, g);
    assert [s] + [t] == [s, t];
  }

  function Repeat<T>(x: T, n: nat): (s: seq<T>)
    ensures |s| == n && forall i :: 0 <= i < n ==> s[i] == x
  {
    seq(n, _ => x)
  }

  lemma RepeatAppends<T>(start: seq<T>, x: T, n: nat)
    ensures start + Repeat(x, 0) == start
    ensures start + Repeat(x, n) + [x] == start + Repeat(x, n + 1)
  {
    assert Repeat(x, n) + [x] == Repeat(x, n + 1);
  }

  lemma RecordAllAppend(b: Book, fills: seq<Fill>, f: Fill)
    ensures RecordAll(b, fills + [f])
            == var before := RecordAll(b, fills);
               if Record(before, f).Success? then Record(before, f).value else before
  {
    hide Record;
    assert (fills + [f])[..|fills|] == fills;
  }

  /** Opening and adding at price zero realises nothing, however often. */
  lemma {:induction false} BuysRealiseNothing(start: seq<Fill>, log: seq<Transaction>, f: Fill, n: nat)
    requires f.side == Buy && f.quantity == 1 && f.price == 0.0
    requires RecordAll(EmptyBook, start) == Book([], log)
    ensures RecordAll(EmptyBook, start + Repeat(f, n))
            == Book(if n == 0 then [] else [NewRow(f).(quantity := n)], log + Repeat(TransactionOf(f, 0.0), n))
  {
    hide Record, RecordAll, Repeat;
    if n == 0 {
      RepeatAppends(start, f, 0);
      RepeatAppends(log, TransactionOf(f, 0.0), 0);
    } else {
      BuysRealiseNothing(start, log, f, n - 1);
      RepeatAppends(start, f, n - 1);
      RepeatAppends(log, TransactionOf(f, 0.0), n - 1);
      RecordAllAppend(EmptyBook, start + Repeat(f, n - 1), f);
      BuyOneMore(log + Repeat(TransactionOf(f, 0.0), n - 1), f, n - 1);
    }
  }

  lemma BuyOneMore(log: seq<Transaction>, f: Fill, held: nat)
    requires f.side == Buy && f.quantity == 1 && f.price == 0.0
    ensures Record(Book(if held == 0 then [] else [NewRow(f).(quantity := held)], log), f)
            == Success(Book([NewRow(f).(quantity := held + 1)], log + [TransactionOf(f, 0.0)]))
  {
    hide Record;
    if held == 0 {
      RecordOpens([], log, f);
      assert [] + [NewRow(f)] == [NewRow(f)];
    } else {
      RecordAdds(NewRow(f).(quantity := held), log, f);
    }
  }

  /** A realised profit of one disappears from the reported figure once a hundred further fills follow it. */
  lemma LimitHidesRealizedProfit()
    ensures var f := Fill("acct", "AAPL", None, Stock, Buy, 1, 0.0);
            var fills := [f, f.(side := Sell, price := 1.0)] + Repeat(f, 100);
            var sc := Scope("acct", None, None);
            var b := RecordAll(EmptyBook, fills);
            Total(b.transactions, ProfitIn(sc)) == 1.0 && CalculateRealizedPnl(b.transactions, sc) == 0.0
  {
    hide Total, Select, RecordAll;
    var f := Fill("acct", "AAPL", None, Stock, Buy, 1, 0.0);
    var s := f.(side := Sell, price := 1.0);
    var sc := Scope("acct", None, None);
    var bought, sold := TransactionOf(f, 0.0), TransactionOf(s, 1.0);
    RoundTrip(f, s, 1.0);
    BuysRealiseNothing([f, s], [bought, sold], f, TRANSACTION_LIMIT);
    RecentLog(bought, sold, sc);
  }

  lemma RecentLog(bought: Transaction, sold: Transaction, sc: Scope)
    requires TransactionIn(bought, sc) && TransactionIn(sold, sc)
    requires bought.realizedPnl == 0.0
    ensures var log := [bought, sold] + Repeat(bought, TRANSACTION_LIMIT);
            Total(log, ProfitIn(sc)) == sold.realizedPnl && CalculateRealizedPnl(log, sc) == 0.0
  {
    hide Total, Select;
    var tail := Repeat(bought, TRANSACTION_LIMIT);
    var log := [bought, sold] + tail;
    NothingIn(tail, ProfitIn(sc));
    NothingIn(tail, (t: Transaction) => t.realizedPnl);
    PairTotal(bought, sold, ProfitIn(sc));
    TotalConcat([bought, sold], tail, ProfitIn(sc));
    AllSelected(log, (t: Transaction) => TransactionIn(t, sc));
    assert log[|log| - TRANSACTION_LIMIT..] == tail;
  }

  lemma {:induction false} NothingIn<T>(s: seq<T>, g: T -> real)
    requires forall i :: 0 <= i < |s| ==> g(s[i]) == 0.0
    ensures Total(s, g) == 0.0
  {
    assert Measure(s, g) == Scale(0.0, Measure(s, g));
    SumScale(0.0, Measure(s, g));
  }

  lemma {:induction false} AllSelected<T>(s: seq<T>, p: T -> bool)
    requires forall i :: 0 <= i < |s| ==> p(s[i])
    ensures Select(s, p) == s
  {
    if |s| > 0 {
      AllSelected(s[..|s| - 1], p);
    }
  }
}
