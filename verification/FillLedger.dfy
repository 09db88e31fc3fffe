/**
  The signed position ledger of backend/src/core/portfolio.py over the position and transaction tables of
  backend/src/db/repositories/portfolio_repo.py.

  The position table is a sequence of rows in insertion order and the transaction table a log, oldest first.
  Money is exact.
 */
module FillLedger {
  import opened Common

  datatype AssetType = Stock | OptionContract | Future

  datatype Row = Row(account: string, symbol: string, strategy: Option<string>, asset: AssetType,
                     quantity: int, avgCost: real, currentPrice: real)

  datatype Transaction = Transaction(account: string, symbol: string, strategy: Option<string>, side: Side,
                                     quantity: nat, price: real, realizedPnl: real)

  datatype Fill = Fill(account: string, symbol: string, strategy: Option<string>, asset: AssetType,
                       side: Side, quantity: nat, price: real)

  /** `scalar_one_or_none` raises when a lookup without a strategy meets rows of several strategies. */
  datatype LedgerError = MultipleRows

  /** The limit that `get_transactions` applies when its caller gives none. */
  const TRANSACTION_LIMIT := 100

  function Multiplier(asset: AssetType): real {
    if asset == OptionContract then 100.0 else 1.0
  }

  function Signed(side: Side, quantity: int): int {
    if side == Buy then quantity else -quantity
  }

  // --------------------------------------------------------------------------------------------
  // Row lookup
  // --------------------------------------------------------------------------------------------

  predicate Matches(row: Row, f: Fill) {
    row.account == f.account && row.symbol == f.symbol && (f.strategy.Some? ==> row.strategy == f.strategy)
  }

  /** The first matching index from `i` on, or the length of the table. */
  function FirstMatch(rows: seq<Row>, f: Fill, i: nat): (k: nat)
    requires i <= |rows|
    ensures i <= k <= |rows|
    ensures forall j :: i <= j < k ==> !Matches(rows[j], f)
    ensures k < |rows| ==> Matches(rows[k], f)
    decreases |rows| - i
  {
    if i == |rows| || Matches(rows[i], f) then i else FirstMatch(rows, f, i + 1)
  }

  datatype Lookup = Missing | At(index: nat) | Ambiguous

  function Find(rows: seq<Row>, f: Fill): (l: Lookup)
    ensures l.At? ==> l.index < |rows| && Matches(rows[l.index], f)
    ensures l.At? <==> exists i :: 0 <= i < |rows| && Matches(rows[i], f)
                                   && forall j :: 0 <= j < |rows| && j != i ==> !Matches(rows[j], f)
    ensures l.Missing? <==> forall i :: 0 <= i < |rows| ==> !Matches(rows[i], f)
  {
    var i := FirstMatch(rows, f, 0);
    if i == |rows| then Missing
    else if FirstMatch(rows, f, i + 1) < |rows| then Ambiguous
    else At(i)
  }

  // --------------------------------------------------------------------------------------------
  // What one fill means: first close against the open quantity, then open with what is left
  // --------------------------------------------------------------------------------------------

  datatype Holding = Holding(quantity: int, avgCost: real)

  datatype Settlement = Settlement(holding: Option<Holding>, pnl: real)

  function Abs(n: int): nat {
    if n < 0 then -n else n
  }

  /** How much of the signed quantity `d` closes an open quantity `q`. */
  function Closed(q: int, d: int): (c: nat)
    ensures c <= Abs(q) && c <= Abs(d)
  {
    if (q > 0 && d < 0) || (q < 0 && d > 0) then (if Abs(d) <= Abs(q) then Abs(d) else Abs(q)) else 0
  }

  /** The part of `q` that `d` closes, with the sign of `q`. */
  function SignedClosed(q: int, d: int): int {
    var c: int := Closed(q, d);
    if q > 0 then c else -c
  }

  function Gain(price: real, avg: real, units: int): real {
    (price - avg) * units as real
  }

  /** Average-cost accounting for `d` units (signed) at `price`; profit is per unit of multiplier. */
  function Settle(h: Option<Holding>, d: int, price: real): Settlement {
    match h
    case None => Settlement(Some(Holding(d, price)), 0.0)
    case Some(Holding(q, avg)) =>
      var c := Closed(q, d);
      var pnl := Gain(price, avg, SignedClosed(q, d));
      if q + d == 0 then
        Settlement(None, pnl)
      else if c == 0 then
        Settlement(Some(Holding(q + d, Blend(avg, Abs(q), price, Abs(d)))), pnl)
      else if c < Abs(d) then
        Settlement(Some(Holding(q + d, price)), pnl)
      else
        Settlement(Some(Holding(q + d, avg)), pnl)
  }

  function Blend(avg: real, held: nat, price: real, added: nat): real
    requires held + added > 0
  {
    WeightedMean(avg, held as real, price, added as real)
  }

  function WeightedMean(avg: real, x: real, price: real, y: real): real
    requires x + y > 0.0
  {
    (avg * x + price * y) / (x + y)
  }

  /** The cost basis of a holding: what its quantity is booked at. */
  function Basis(h: Option<Holding>): real {
    if h.None? then 0.0 else h.value.avgCost * h.value.quantity as real
  }

  function Quantity(h: Option<Holding>): int {
    if h.None? then 0 else h.value.quantity
  }

  /** Every branch moves cost basis by what was paid plus what was realised. */
  lemma SettleBalances(h: Option<Holding>, d: int, price: real)
    ensures var s := Settle(h, d, price);
            && Quantity(s.holding) == Quantity(h) + d
            && Basis(s.holding) == Basis(h) + price * d as real + s.pnl
  {
    if h.Some? {
      var q, avg := h.value.quantity, h.value.avgCost;
      var c := Closed(q, d);
      if q + d != 0 && c == 0 {
        BlendBasis(avg, q, price, d);
      } else {
        ClosingBasis(avg, q, price, d, SignedClosed(q, d));
      }
    }
  }

  lemma BlendBasis(avg: real, q: int, price: real, d: int)
    requires q + d != 0 && Closed(q, d) == 0
    ensures Blend(avg, Abs(q), price, Abs(d)) * (q + d) as real == avg * q as real + price * d as real
  {
    var x, y := Abs(q) as real, Abs(d) as real;
    MeanTimesWeight(avg, x, price, y);
    if q + d < 0 {
      assert q as real == -x && d as real == -y;
      Negate(WeightedMean(avg, x, price, y), avg, x, price, y);
    }
  }

  lemma MeanTimesWeight(avg: real, x: real, price: real, y: real)
    requires x + y > 0.0
    ensures WeightedMean(avg, x, price, y) * (x + y) == avg * x + price * y
  {
  }

  lemma Negate(m: real, avg: real, x: real, price: real, y: real)
    requires m * (x + y) == avg * x + price * y
    ensures m * (-x + -y) == avg * -x + price * -y
  {
  }

  lemma ClosingBasis(avg: real, q: int, price: real, d: int, c: int)
    ensures avg * (q - c) as real == avg * q as real + price * (-c) as real + (price - avg) * c as real
    ensures price * (q + d) as real
            == avg * q as real + price * d as real + (price - avg) * q as real
    ensures avg * (q + d) as real == avg * q as real + price * d as real + (price - avg) * (-d) as real
  {
  }

  /** Splitting a fill into two of the same side at the same price changes nothing: the same holding results and the
      same profit in total, even when the first part closes the position and the second reopens it. */
  lemma SplitFillAgrees(h: Option<Holding>, d1: int, d2: int, price: real)
    requires (d1 > 0 && d2 > 0) || (d1 < 0 && d2 < 0)
    ensures var whole := Settle(h, d1 + d2, price);
            var first := Settle(h, d1, price);
            var second := Settle(first.holding, d2, price);
            && whole.holding == second.holding
            && whole.pnl == first.pnl + second.pnl
  {
    match h
    case None =>
      AddAtSamePrice(d1, d2, price);
    case Some(Holding(q, avg)) =>
      if Closed(q, d1 + d2) == 0 {
        SplitOpening(q, avg, d1, d2, price);
      } else if Abs(d1) < Abs(q) {
        SplitWithinPosition(q, avg, d1, d2, price);
      } else {
        SplitThroughZero(q, avg, d1, d2, price);
      }
  }

  lemma SplitOpening(q: int, avg: real, d1: int, d2: int, price: real)
    requires (d1 > 0 && d2 > 0) || (d1 < 0 && d2 < 0)
    requires Closed(q, d1 + d2) == 0
    ensures var h := Some(Holding(q, avg));
            var first, whole := Settle(h, d1, price), Settle(h, d1 + d2, price);
            var second := Settle(first.holding, d2, price);
            whole.holding == second.holding && whole.pnl == first.pnl + second.pnl
  {
    hide Blend, Gain;
    var blended := Blend(avg, Abs(q), price, Abs(d1));
    assert Settle(Some(Holding(q, avg)), d1, price).holding == Some(Holding(q + d1, blended));
    assert Closed(q, d1) == 0 && Closed(q + d1, d2) == 0;
    BlendTwice(avg, Abs(q), price, Abs(d1), Abs(d2));
    GainAdds(price, avg, 0, 0);
    GainAdds(price, blended, 0, 0);
  }

  lemma SplitWithinPosition(q: int, avg: real, d1: int, d2: int, price: real)
    requires (d1 > 0 && d2 > 0) || (d1 < 0 && d2 < 0)
    requires Closed(q, d1 + d2) > 0 && Abs(d1) < Abs(q)
    ensures var h := Some(Holding(q, avg));
            var first, whole := Settle(h, d1, price), Settle(h, d1 + d2, price);
            var second := Settle(first.holding, d2, price);
            whole.holding == second.holding && whole.pnl == first.pnl + second.pnl
  {
    hide Blend, Gain;
    assert Settle(Some(Holding(q, avg)), d1, price).holding == Some(Holding(q + d1, avg));
    assert SignedClosed(q, d1 + d2) == SignedClosed(q, d1) + SignedClosed(q + d1, d2);
    GainAdds(price, avg, SignedClosed(q, d1), SignedClosed(q + d1, d2));
  }

  lemma SplitThroughZero(q: int, avg: real, d1: int, d2: int, price: real)
    requires (d1 > 0 && d2 > 0) || (d1 < 0 && d2 < 0)
    requires Closed(q, d1 + d2) > 0 && Abs(d1) >= Abs(q)
    ensures var h := Some(Holding(q, avg));
            var first, whole := Settle(h, d1, price), Settle(h, d1 + d2, price);
            var second := Settle(first.holding, d2, price);
            whole.holding == second.holding && whole.pnl == first.pnl + second.pnl
  {
    hide Blend, Gain;
    assert SignedClosed(q, d1 + d2) == SignedClosed(q, d1) == q;
    if q + d1 != 0 {
      assert Settle(Some(Holding(q, avg)), d1, price).holding == Some(Holding(q + d1, price));
      AddAtSamePrice(q + d1, d2, price);
    }
  }

  lemma AddAtSamePrice(q: int, d: int, price: real)
    requires (q > 0 && d > 0) || (q < 0 && d < 0)
    ensures Settle(Some(Holding(q, price)), d, price) == Settlement(Some(Holding(q + d, price)), 0.0)
  {
    hide Blend, Gain;
    BlendSame(price, Abs(q), Abs(d));
    assert Closed(q, d) == 0 && SignedClosed(q, d) == 0;
    GainAdds(price, price, 0, 0);
  }

  lemma GainAdds(price: real, avg: real, a: int, b: int)
    ensures Gain(price, avg, a + b) == Gain(price, avg, a) + Gain(price, avg, b)
    ensures Gain(price, avg, 0) == 0.0
  {
  }

  lemma BlendSame(price: real, a: nat, b: nat)
    requires b > 0
    ensures Blend(price, a, price, b) == price
  {
    MeanOfSame(price, a as real, b as real);
  }

  lemma MeanOfSame(price: real, x: real, y: real)
    requires x + y > 0.0
    ensures WeightedMean(price, x, price, y) == price
  {
    QuotientIs(price * x + price * y, x + y, price);
  }

  lemma QuotientIs(a: real, b: real, q: real)
    requires b > 0.0 && a == q * b
    ensures a / b == q
  {
  }

  lemma BlendTwice(avg: real, held: nat, price: real, a: nat, b: nat)
    requires a > 0 && b > 0
    ensures Blend(Blend(avg, held, price, a), held + a, price, b) == Blend(avg, held, price, a + b)
    ensures held == 0 ==> Blend(avg, held, price, a) == price
  {
    MeanTwice(avg, held as real, price, a as real, b as real);
    if held == 0 {
      QuotientIs(price * a as real, a as real, price);
    }
  }

  lemma MeanTwice(avg: real, x: real, price: real, y: real, z: real)
    requires x >= 0.0 && y > 0.0 && z > 0.0
    ensures WeightedMean(WeightedMean(avg, x, price, y), x + y, price, z) == WeightedMean(avg, x, price, y + z)
  {
    MeanTimesWeight(avg, x, price, y);
    assert price * (y + z) == price * y + price * z;
  }

  // --------------------------------------------------------------------------------------------
  // One unit at a time
  // --------------------------------------------------------------------------------------------

  /** One unit bought (+1) or sold (-1) at `price`: against the position it realises its own gain over the average cost
      and leaves that cost; with the position, or from nothing, it enters the average. */
  function SettleUnit(h: Option<Holding>, unit: int, price: real): Settlement {
    if h.None? || h.value.quantity == 0 then Settlement(Some(Holding(unit, price)), 0.0)
    else
      var q, avg := h.value.quantity, h.value.avgCost;
      if (q > 0) == (unit > 0) then
        Settlement(Some(Holding(q + unit, WithOneMore(avg, Abs(q), price))), 0.0)
      else
        Settlement(if q + unit == 0 then None else Some(Holding(q + unit, avg)),
                   if unit > 0 then avg - price else price - avg)
  }

  /** The average cost of `held` units at `avg` and one at `price`. */
  function WithOneMore(avg: real, held: nat, price: real): real {
    (avg * held as real + price) / (held as real + 1.0)
  }

  function SettleUnits(h: Option<Holding>, unit: int, n: nat, price: real): Settlement {
    if n == 0 then Settlement(h, 0.0)
    else
      var before := SettleUnits(h, unit, n - 1, price);
      var last := SettleUnit(before.holding, unit, price);
      Settlement(last.holding, before.pnl + last.pnl)
  }

  lemma UnitSettles(h: Option<Holding>, unit: int, price: real)
    requires unit == 1 || unit == -1
    ensures Settle(h, unit, price) == SettleUnit(h, unit, price)
  {
    hide Blend, WithOneMore, Gain;
    if h.Some? {
      var q, avg := h.value.quantity, h.value.avgCost;
      assert Abs(unit) == 1;
      UnitBlends(avg, Abs(q), price);
      UnitGain(price, avg);
      if q == 0 || (q > 0) == (unit > 0) {
        assert Closed(q, unit) == 0 && q + unit != 0;
        assert Settle(h, unit, price).pnl == Gain(price, avg, 0);
      } else {
        assert SignedClosed(q, unit) == -unit;
      }
    }
  }

  lemma UnitBlends(avg: real, held: nat, price: real)
    ensures Blend(avg, held, price, 1) == WithOneMore(avg, held, price)
    ensures held == 0 ==> Blend(avg, held, price, 1) == price
  {
    assert price * 1.0 == price;
  }

  lemma UnitGain(price: real, avg: real)
    ensures Gain(price, avg, 1) == price - avg && Gain(price, avg, -1) == avg - price && Gain(price, avg, 0) == 0.0
  {
  }

  /** A fill of any size is as many fills of one unit, through every open, add, reduce, close and flip. */
  lemma {:induction false} SettlesByUnits(h: Option<Holding>, unit: int, n: nat, price: real)
    requires (unit == 1 || unit == -1) && n > 0
    ensures Settle(h, n * unit, price) == SettleUnits(h, unit, n, price)
  {
    hide Settle, SettleUnit;
    if n == 1 {
      UnitSettles(h, unit, price);
      assert SettleUnits(h, unit, 0, price) == Settlement(h, 0.0);
    } else {
      SettlesByUnits(h, unit, n - 1, price);
      assert n * unit == (n - 1) * unit + unit;
      SplitFillAgrees(h, (n - 1) * unit, unit, price);
      UnitSettles(Settle(h, (n - 1) * unit, price).holding, unit, price);
    }
  }
}
