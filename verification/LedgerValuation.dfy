/**
  What contracts and quotes are worth to the position ledger: an option contract is a hundred shares in everything it
  reports, and live quotes revalue exactly the rows that have one. (backend/src/core/portfolio.py)
 */
module LedgerValuation {
  import opened Common
  import opened RealSums
  import opened FillLedger
  import opened PortfolioManagement
  import opened LedgerConservation

  // --------------------------------------------------------------------------------------------
  // Contracts as shares
  // --------------------------------------------------------------------------------------------

  /** The shares that a quantity of a kind of contract stands for. */
  function Shares(asset: AssetType, quantity: int): int {
    if asset == OptionContract then 100 * quantity else quantity
  }

  function FillInShares(f: Fill): Fill {
    f.(asset := Stock, quantity := Shares(f.asset, f.quantity))
  }

  function FillsInShares(fills: seq<Fill>): (r: seq<Fill>)
    ensures |r| == |fills|
  {
    seq(|fills|, i requires 0 <= i < |fills| => FillInShares(fills[i]))
  }

  function RowInShares(row: Row): Row {
    row.(asset := Stock, quantity := Shares(row.asset, row.quantity))
  }

  function RowsInShares(rows: seq<Row>): (r: seq<Row>)
    ensures |r| == |rows|
  {
    seq(|rows|, i requires 0 <= i < |rows| => RowInShares(rows[i]))
  }

  function TransactionInShares(t: Transaction, assets: string -> AssetType): Transaction {
    t.(quantity := Shares(assets(t.symbol), t.quantity))
  }

  function TransactionsInShares(log: seq<Transaction>, assets: string -> AssetType): (r: seq<Transaction>)
    ensures |r| == |log|
  {
    seq(|log|, i requires 0 <= i < |log| => TransactionInShares(log[i], assets))
  }

  function BookInShares(b: Book, assets: string -> AssetType): Book {
    Book(RowsInShares(b.rows), TransactionsInShares(b.transactions, assets))
  }

  function HoldingInShares(h: Option<Holding>, asset: AssetType): Option<Holding> {
    if h.None? then None else Some(h.value.(quantity := Shares(asset, h.value.quantity)))
  }

  lemma BlendHundred(avg: real, held: nat, price: real, added: nat)
    requires held + added > 0
    ensures Blend(avg, 100 * held, price, 100 * added) == Blend(avg, held, price, added)
  {
    var x, y := held as real, added as real;
    assert (100 * held) as real == 100.0 * x && (100 * added) as real == 100.0 * y;
    QuotientIs(avg * (100.0 * x) + price * (100.0 * y), 100.0 * x + 100.0 * y, WeightedMean(avg, x, price, y)) by {
      MeanTimesWeight(avg, x, price, y);
    }
  }

  lemma HundredTimes(gain: real, c: int)
    ensures gain * (100 * c) as real == gain * c as real * 100.0
    ensures gain * c as real * 1.0 == gain * c as real
  {
    assert (100 * c) as real == 100.0 * c as real;
  }

  /** Settling a hundred times the quantity on a hundred times the position: the same average, a hundred times the
      profit. */
  lemma SettleHundred(h: Option<Holding>, d: int, price: real)
    ensures var one, hundred := Settle(h, d, price), Settle(HoldingInShares(h, OptionContract), 100 * d, price);
            && hundred.holding == HoldingInShares(one.holding, OptionContract)
            && hundred.pnl == one.pnl * 100.0
  {
    hide Blend;
    match h
    case None =>
    case Some(Holding(q, avg)) =>
      ClosedHundred(q, d);
      GainHundred(price, avg, SignedClosed(q, d));
      hide Abs, Closed, SignedClosed, Gain;
      if q + d != 0 {
        BlendHundred(avg, Abs(q), price, Abs(d));
      }
  }

  lemma GainHundred(price: real, avg: real, units: int)
    ensures Gain(price, avg, 100 * units) == Gain(price, avg, units) * 100.0
  {
    HundredTimes(price - avg, units);
  }

  lemma ClosedHundred(q: int, d: int)
    ensures Abs(100 * q) == 100 * Abs(q) && Abs(100 * d) == 100 * Abs(d) && Abs(100 * (q + d)) == 100 * Abs(q + d)
    ensures Closed(100 * q, 100 * d) == 100 * Closed(q, d)
    ensures SignedClosed(100 * q, 100 * d) == 100 * SignedClosed(q, d)
  {
  }

  lemma SettlesInShares(h: Option<Holding>, d: int, price: real, asset: AssetType)
    ensures var one, shares := Settle(h, d, price), Settle(HoldingInShares(h, asset), Shares(asset, d), price);
            && shares.holding == HoldingInShares(one.holding, asset)
            && Realized(shares.pnl, Stock) == Realized(one.pnl, asset)
  {
    hide Settle;
    if asset == OptionContract {
      SettleHundred(h, d, price);
    } else {
      assert HoldingInShares(h, asset) == h;
    }
  }

  lemma {:induction false} MatchInShares(rows: seq<Row>, f: Fill, i: nat)
    requires i <= |rows|
    ensures FirstMatch(RowsInShares(rows), FillInShares(f), i) == FirstMatch(rows, f, i)
    decreases |rows| - i
  {
    if i < |rows| && !Matches(rows[i], f) {
      MatchInShares(rows, f, i + 1);
    }
  }

  lemma FindInShares(rows: seq<Row>, f: Fill)
    ensures Find(RowsInShares(rows), FillInShares(f)) == Find(rows, f)
  {
    MatchInShares(rows, f, 0);
    var i := FirstMatch(rows, f, 0);
    if i < |rows| {
      MatchInShares(rows, f, i + 1);
    }
  }

  lemma StoredInShares(rows: seq<Row>, i: nat, h: Option<Holding>)
    requires i < |rows|
    ensures Stored(RowsInShares(rows), i, HoldingInShares(h, rows[i].asset)) == RowsInShares(Stored(rows, i, h))
  {
  }

  lemma RecordInShares(b: Book, f: Fill, assets: string -> AssetType)
    requires AssetsAgree(b.rows, assets) && f.asset == assets(f.symbol)
    ensures var one, shares := Record(b, f), Record(BookInShares(b, assets), FillInShares(f));
            && (one.Success? <==> shares.Success?)
            && (one.Success? ==> shares.value == BookInShares(one.value, assets))
  {
    hide Settle, Realized, Find, RowsInShares, TransactionsInShares;
    FindInShares(b.rows, f);
    match Find(b.rows, f)
    case Ambiguous =>
    case Missing =>
      AppendRow(b.rows, NewRow(f));
      AppendTransaction(b.transactions, TransactionOf(f, 0.0), assets);
    case At(i) =>
      RowAt(b.rows, i);
      var d := Signed(f.side, f.quantity);
      var s := Settle(Some(HoldingOf(b.rows[i])), d, f.price);
      SettlesInShares(Some(HoldingOf(b.rows[i])), d, f.price, f.asset);
      StoredInShares(b.rows, i, s.holding);
      AppendTransaction(b.transactions, TransactionOf(f, Realized(s.pnl, f.asset)), assets);
  }

  lemma RowAt(rows: seq<Row>, i: nat)
    requires i < |rows|
    ensures RowsInShares(rows)[i] == RowInShares(rows[i])
  {
  }

  lemma AppendRow(rows: seq<Row>, row: Row)
    ensures RowsInShares(rows + [row]) == RowsInShares(rows) + [RowInShares(row)]
  {
  }

  lemma AppendTransaction(log: seq<Transaction>, t: Transaction, assets: string -> AssetType)
    ensures TransactionsInShares(log + [t], assets)
         == TransactionsInShares(log, assets) + [TransactionInShares(t, assets)]
  {
  }

  /** Over every run of fills: trading contracts leaves exactly the tables that trading the shares they stand for
      leaves, a hundred for an option and one for anything else, with the same average costs and realised profits. */
  lemma {:induction false} ContractsAreShares(fills: seq<Fill>, assets: string -> AssetType)
    requires forall i :: 0 <= i < |fills| ==> fills[i].asset == assets(fills[i].symbol)
    ensures RecordAll(EmptyBook, FillsInShares(fills)) == BookInShares(RecordAll(EmptyBook, fills), assets)
  {
    hide Record, AssetsAgree, BookInShares, FillsInShares;
    if |fills| == 0 {
      EmptyInShares(assets);
    } else {
      var n := |fills| - 1;
      ContractsAreShares(fills[..n], assets);
      PrefixInShares(fills, n);
      assert AssetsAgree(RecordAll(EmptyBook, fills[..n]).rows, assets) by {
        RunDrifts(fills[..n], Scope(fills[n].account, None, None), assets);
      }
      RecordInShares(RecordAll(EmptyBook, fills[..n]), fills[n], assets);
    }
  }

  lemma EmptyInShares(assets: string -> AssetType)
    ensures BookInShares(EmptyBook, assets) == EmptyBook
  {
  }

  lemma PrefixInShares(fills: seq<Fill>, n: nat)
    requires n < |fills|
    ensures FillsInShares(fills)[..n] == FillsInShares(fills[..n])
    ensures FillsInShares(fills)[n] == FillInShares(fills[n])
  {
  }

  // --------------------------------------------------------------------------------------------
  // Marks
  // --------------------------------------------------------------------------------------------

  /** What a row is worth more at its quote than at its stored price, and nothing without a quote. */
  function RevaluedIn(sc: Scope, quotes: map<string, real>): Row -> real {
    (row: Row) =>
      if RowIn(row, sc) && row.symbol in quotes
      then (quotes[row.symbol] - row.currentPrice) * Shares(row.asset, row.quantity) as real else 0.0
  }

  /** What a row has gained at its stored price over its average cost, share by share. */
  function GainIn(sc: Scope): Row -> real {
    (row: Row) =>
      if RowIn(row, sc) then (row.currentPrice - row.avgCost) * Shares(row.asset, row.quantity) as real else 0.0
  }

  lemma ProfitInShares(high: real, low: real, units: int, asset: AssetType)
    ensures Profit(high, low, units, Multiplier(asset)) == (high - low) * Shares(asset, units) as real
  {
    HundredTimes(high - low, units);
  }

  lemma Revalue(quote: real, stored: real, cost: real, shares: int)
    ensures (quote - cost) * shares as real == (stored - cost) * shares as real + (quote - stored) * shares as real
  {
  }

  /** The reported unrealised profit of any table: without a quote store, the gain of every row under the scope at its
      stored price; a quote store adds, for every row it has a quote for, exactly the move from the one to the other. */
  lemma {:induction false} QuotesRevalue(rows: seq<Row>, sc: Scope, quotes: map<string, real>)
    ensures Total(rows, UnrealizedIn(sc, (row: Row) => MarkOf(row, None))) == Total(rows, GainIn(sc))
    ensures Total(rows, UnrealizedIn(sc, (row: Row) => MarkOf(row, Some(quotes))))
         == Total(rows, GainIn(sc)) + Total(rows, RevaluedIn(sc, quotes))
  {
    hide Total, Profit, Shares;
    var stored, quoted := (row: Row) => MarkOf(row, None), (row: Row) => MarkOf(row, Some(quotes));
    forall i | 0 <= i < |rows|
      ensures UnrealizedIn(sc, stored)(rows[i]) == GainIn(sc)(rows[i])
      ensures UnrealizedIn(sc, quoted)(rows[i]) == GainIn(sc)(rows[i]) + RevaluedIn(sc, quotes)(rows[i])
    {
      var row := rows[i];
      ProfitInShares(MarkOf(row, None), row.avgCost, row.quantity, row.asset);
      ProfitInShares(MarkOf(row, Some(quotes)), row.avgCost, row.quantity, row.asset);
      Revalue(MarkOf(row, Some(quotes)), row.currentPrice, row.avgCost, Shares(row.asset, row.quantity));
    }
    SamePointwise(rows, UnrealizedIn(sc, stored), GainIn(sc));
    TotalPointwise(rows, UnrealizedIn(sc, quoted), GainIn(sc), RevaluedIn(sc, quotes));
  }

  lemma SamePointwise<T>(rows: seq<T>, f: T -> real, g: T -> real)
    requires forall i :: 0 <= i < |rows| ==> f(rows[i]) == g(rows[i])
    ensures Total(rows, f) == Total(rows, g)
  {
    assert Measure(rows, f) == Measure(rows, g);
  }
}
