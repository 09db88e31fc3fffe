/**
  `PortfolioManager` of backend/src/core/portfolio.py: recording fills in the position and transaction tables, and
  the realised and unrealised profit read back from them.
 */
module PortfolioManagement {
  import opened Common
  import opened FillLedger

  /** The two tables. */
  datatype Book = Book(rows: seq<Row>, transactions: seq<Transaction>)

  const EmptyBook := Book([], [])

  function HoldingOf(row: Row): Holding {
    Holding(row.quantity, row.avgCost)
  }

  function Remove<T>(s: seq<T>, i: nat): seq<T>
    requires i < |s|
  {
    s[..i] + s[i + 1..]
  }

  function NewRow(f: Fill): Row {
    Row(f.account, f.symbol, f.strategy, f.asset, Signed(f.side, f.quantity), f.price, 0.0)
  }

  function TransactionOf(f: Fill, realizedPnl: real): Transaction {
    Transaction(f.account, f.symbol, f.strategy, f.side, f.quantity, f.price, realizedPnl)
  }

  function Stored(rows: seq<Row>, i: nat, h: Option<Holding>): seq<Row>
    requires i < |rows|
  {
    match h
    case None => Remove(rows, i)
    case Some(Holding(q, avg)) => rows[i := rows[i].(quantity := q, avgCost := avg)]
  }

  /** Profit per unit times the contract multiplier. */
  function Realized(pnl: real, asset: AssetType): real {
    pnl * Multiplier(asset)
  }

  /** `(gain per unit) * units * multiplier`, as each closing branch computes it. */
  function Profit(high: real, low: real, units: int, multiplier: real): real {
    (high - low) * units as real * multiplier
  }

  function AverageCost(oldCost: real, oldQty: int, price: real, quantity: int, newQty: int): real
    requires newQty != 0
  {
    (oldCost * oldQty as real + price * quantity as real) / newQty as real
  }

  /** What recording a fill means: settle it against the one matching row. */
  function Record(b: Book, f: Fill): Result<Book, LedgerError> {
    var d := Signed(f.side, f.quantity);
    match Find(b.rows, f)
    case Ambiguous => Failure(MultipleRows)
    case Missing => Success(Book(b.rows + [NewRow(f)], b.transactions + [TransactionOf(f, 0.0)]))
    case At(i) =>
      var s := Settle(Some(HoldingOf(b.rows[i])), d, f.price);
      Success(Book(Stored(b.rows, i, s.holding), b.transactions + [TransactionOf(f, Realized(s.pnl, f.asset))]))
  }

  predicate NoneMatches(rows: seq<Row>, f: Fill) {
    forall i :: 0 <= i < |rows| ==> !Matches(rows[i], f)
  }

  lemma RemovedUnmatched(rows: seq<Row>, f: Fill)
    requires Find(rows, f).At?
    ensures NoneMatches(Remove(rows, Find(rows, f).index), f)
  {
  }

  /** The manager, with its repository's tables as fields. */
  class PortfolioManager {
    var rows: seq<Row>
    var transactions: seq<Transaction>

    function Contents(): Book
      reads this
    {
      Book(rows, transactions)
    }

    constructor ()
      ensures Contents() == EmptyBook
    {
      rows, transactions := [], [];
    }

    /** Eight branches: open, add, reduce, close and flip, on either side. The position returned after a close is
        the deleted row with quantity zero. */
    method RecordFill(f: Fill) returns (r: Result<Row, LedgerError>)
      modifies this
      ensures r.Failure? <==> Record(old(Contents()), f).Failure?
      ensures r.Failure? ==> Contents() == old(Contents())
      ensures r.Success? ==> Success(Contents()) == Record(old(Contents()), f)
      ensures r.Success? ==>
                && Matches(r.value, f)
                && (r.value in rows || (r.value.quantity == 0 && NoneMatches(rows, f)))
    {
      hide Blend, Settle, Realized, Profit, AverageCost, NoneMatches;
      var existing := Find(rows, f);
      if existing.Ambiguous? {
        return Failure(MultipleRows);
      }
      var realizedPnl := 0.0;
      var multiplier := Multiplier(f.asset);
      var position: Row;
      if existing.Missing? {
        position := NewRow(f);
        rows := rows + [position];
        assert rows[|rows| - 1] == position;
      } else {
        var i := existing.index;
        var oldQty, oldCost := rows[i].quantity, rows[i].avgCost;
        ghost var s := Settle(Some(HoldingOf(rows[i])), Signed(f.side, f.quantity), f.price);
        if f.side == Buy {
          var newQty := oldQty + f.quantity;
          if newQty == 0 {
            realizedPnl := Profit(oldCost, f.price, f.quantity, multiplier);
            CoverProfit(oldQty, oldCost, f.quantity, f.price, f.quantity, f.asset);
            position := rows[i].(quantity := 0);
            RemovedUnmatched(rows, f);
            rows := Remove(rows, i);
          } else if oldQty < 0 {
            var coverQty := if f.quantity <= Abs(oldQty) then f.quantity else Abs(oldQty);
            realizedPnl := Profit(oldCost, f.price, coverQty, multiplier);
            var newCost := if newQty > 0 then f.price else oldCost;
            CoverProfit(oldQty, oldCost, f.quantity, f.price, coverQty, f.asset);
            position := rows[i].(quantity := newQty, avgCost := newCost);
            rows := rows[i := position];
          } else {
            var newCost := AverageCost(oldCost, oldQty, f.price, f.quantity, newQty);
            AddSettles(oldQty, oldCost, f.quantity, f.price, f.asset);
            position := rows[i].(quantity := newQty, avgCost := newCost);
            rows := rows[i := position];
          }
        } else {
          var newQty := oldQty - f.quantity;
          if newQty == 0 {
            realizedPnl := Profit(f.price, oldCost, f.quantity, multiplier);
            SellProfit(oldQty, oldCost, f.quantity, f.price, f.quantity, f.asset);
            position := rows[i].(quantity := 0);
            RemovedUnmatched(rows, f);
            rows := Remove(rows, i);
          } else if oldQty > 0 {
            var sellQty := if f.quantity <= oldQty then f.quantity else oldQty;
            realizedPnl := Profit(f.price, oldCost, sellQty, multiplier);
            var newCost := if newQty < 0 then f.price else oldCost;
            SellProfit(oldQty, oldCost, f.quantity, f.price, sellQty, f.asset);
            position := rows[i].(quantity := newQty, avgCost := newCost);
            rows := rows[i := position];
          } else {
            var newCost := AverageCost(oldCost, Abs(oldQty), f.price, f.quantity, Abs(newQty));
            AddSettles(oldQty, oldCost, Signed(Sell, f.quantity), f.price, f.asset);
            position := rows[i].(quantity := newQty, avgCost := newCost);
            rows := rows[i := position];
          }
        }
        assert realizedPnl == Realized(s.pnl, f.asset);
        assert rows == Stored(old(rows), i, s.holding);
        assert s.holding.Some? ==> rows[i] == position;
      }
      transactions := transactions + [TransactionOf(f, realizedPnl)];
      r := Success(position);
    }
  }

  /** A buy against a short position realises on the covered part only. */
  lemma CoverProfit(q: int, avg: real, n: int, price: real, cover: int, asset: AssetType)
    requires n >= 0 && (q < 0 || q + n == 0)
    requires cover == if n <= Abs(q) then n else Abs(q)
    ensures var s := Settle(Some(Holding(q, avg)), n, price);
            && s.holding == (if q + n == 0 then None else Some(Holding(q + n, if q + n > 0 then price else avg)))
            && Realized(s.pnl, asset) == Profit(avg, price, cover, Multiplier(asset))
  {
    hide Blend;
    if q < 0 && n == 0 {
      BlendNothing(q, avg, price);
    }
    assert SignedClosed(q, n) == -cover;
    assert (price - avg) * (-cover) as real == (avg - price) * cover as real;
  }

  /** A sell against a long position realises on the sold part only. */
  lemma SellProfit(q: int, avg: real, n: int, price: real, sold: int, asset: AssetType)
    requires n >= 0 && (q > 0 || q - n == 0)
    requires sold == if n <= Abs(q) then n else Abs(q)
    ensures var s := Settle(Some(Holding(q, avg)), -n, price);
            && s.holding == (if q - n == 0 then None else Some(Holding(q - n, if q - n < 0 then price else avg)))
            && Realized(s.pnl, asset) == Profit(price, avg, sold, Multiplier(asset))
  {
    hide Blend;
    if q > 0 && n == 0 {
      BlendNothing(q, avg, price);
    }
    assert SignedClosed(q, -n) == sold;
  }

  lemma BlendNothing(q: int, avg: real, price: real)
    requires q != 0
    ensures Blend(avg, Abs(q), price, 0) == avg
  {
    QuotientIs(avg * Abs(q) as real + price * 0.0, Abs(q) as real, avg);
  }

  /** A fill that extends the position realises nothing and averages the cost. */
  lemma AddSettles(q: int, avg: real, d: int, price: real, asset: AssetType)
    requires q + d != 0 && ((q >= 0 && d >= 0) || (q <= 0 && d <= 0))
    ensures var s := Settle(Some(Holding(q, avg)), d, price);
            && s.holding == Some(Holding(q + d, AverageCost(avg, Abs(q), price, Abs(d), Abs(q + d))))
            && Realized(s.pnl, asset) == 0.0
  {
    hide Blend, Abs, AverageCost;
    SameSideAdds(q, d);
    BlendIsAverage(avg, Abs(q), price, Abs(d), Abs(q + d));
    GainAdds(price, avg, 0, 0);
  }

  lemma SameSideAdds(q: int, d: int)
    requires q + d != 0 && ((q >= 0 && d >= 0) || (q <= 0 && d <= 0))
    ensures Closed(q, d) == 0
    ensures Abs(q) + Abs(d) == Abs(q + d) > 0
  {
  }

  lemma BlendIsAverage(avg: real, held: nat, price: real, added: nat, n: nat)
    requires held + added == n > 0
    ensures Blend(avg, held, price, added) == AverageCost(avg, held, price, added, n)
  {
    assert held as real + added as real == n as real;
  }
}
