/** The attribution of profit to factors, backend/src/backtest/attribution.py. */
module Attribution {
  import opened Common
  import opened FactorDicts

  // --------------------------------------------------------------------------------------------
  // One trade
  // --------------------------------------------------------------------------------------------

  function Share(part: real, whole: real, amount: real): real
    requires whole != 0.0
  {
    part / whole * amount
  }

  function EqualShare(amount: real, count: nat): real
    requires count > 0
  {
    amount / count as real
  }

  /** A factor's weight: the given one, zero when it is not given, or one over the number of factors when none is. */
  function WeightOf(weights: Option<Dict>, count: nat, factor: string): real
    requires count > 0
  {
    if weights.Some? then Get(weights.value, factor) else EqualShare(1.0, count)
  }

  /** The weight of all named factors together. */
  function WeightSum(factors: seq<Entry>, weights: Option<Dict>, count: nat): real
    requires count > 0
  {
    if |factors| == 0 then 0.0
    else WeightSum(factors[..|factors| - 1], weights, count) + WeightOf(weights, count, factors[|factors| - 1].name)
  }

  function Shares(factors: Dict, weights: Option<Dict>, count: nat, whole: real, pnl: real): (r: Dict)
    requires count > 0 && whole != 0.0
    ensures |r| == |factors|
    ensures forall i :: 0 <= i < |r| ==>
              r[i] == Entry(factors[i].name, Share(WeightOf(weights, count, factors[i].name), whole, pnl))
  {
    var r: seq<Entry> := seq(|factors|, i requires 0 <= i < |factors| =>
      Entry(factors[i].name, Share(WeightOf(weights, count, factors[i].name), whole, pnl)));
    assert forall i :: 0 <= i < |r| ==> r[i].name == factors[i].name;
    r
  }

  function TradeAttribution(pnl: real, factors: Dict, weights: Option<Dict>): Dict {
    if |factors| == 0 then []
    else if pnl == 0.0 then Same(factors, 0.0)
    else
      var totalWeight := WeightSum(factors, weights, |factors|);
      if totalWeight == 0.0 then Same(factors, EqualShare(pnl, |factors|))
      else Shares(factors, weights, |factors|, totalWeight, pnl)
  }

  method CalculateTradeAttribution(pnl: real, entryFactors: Dict, factorWeights: Option<Dict>)
    returns (attribution: Dict)
    ensures attribution == TradeAttribution(pnl, entryFactors, factorWeights)
    ensures Total(attribution) == pnl <==> entryFactors != [] || pnl == 0.0
  {
    hide Share, EqualShare, WeightOf, WeightSum, Get, Has, Put, Total;
    AttributionSumsIff(pnl, entryFactors, factorWeights);
    if |entryFactors| == 0 {
      return [];
    }
    if pnl == 0.0 {
      return Same(entryFactors, 0.0);
    }
    ghost var n := |entryFactors|;
    var weights :=
      if factorWeights == None then Same(entryFactors, EqualShare(1.0, |entryFactors|)) else factorWeights.value;
    forall i | 0 <= i < n
      ensures Get(weights, entryFactors[i].name) == WeightOf(factorWeights, n, entryFactors[i].name)
    {
      WeightIsLookup(entryFactors, factorWeights, weights, i);
    }
    var totalWeight := 0.0;
    WeightSumNext(entryFactors, factorWeights, n, 0);
    for i := 0 to |entryFactors|
      invariant totalWeight == WeightSum(entryFactors[..i], factorWeights, n)
    {
      WeightSumNext(entryFactors, factorWeights, n, i);
      totalWeight := totalWeight + Get(weights, entryFactors[i].name);
    }
    assert entryFactors[..|entryFactors|] == entryFactors;
    if totalWeight == 0.0 {
      return Same(entryFactors, EqualShare(pnl, |entryFactors|));
    }
    attribution := [];
    ghost var expected := Shares(entryFactors, factorWeights, n, totalWeight, pnl);
    for i := 0 to |entryFactors|
      invariant attribution == expected[..i]
    {
      var name := entryFactors[i].name;
      NotYet(expected, i);
      attribution := Put(attribution, name, Share(Get(weights, name), totalWeight, pnl));
    }
  }

  lemma WeightSumNext(factors: Dict, weights: Option<Dict>, count: nat, i: nat)
    requires count > 0 && i < |factors|
    ensures WeightSum([], weights, count) == 0.0
    ensures WeightSum(factors[..i + 1], weights, count)
         == WeightSum(factors[..i], weights, count) + WeightOf(weights, count, factors[i].name)
  {
    hide WeightOf;
    assert factors[..i + 1][..i] == factors[..i];
  }

  lemma NotYet(d: Dict, i: nat)
    requires i < |d|
    ensures UniqueNames(d[..i]) && !Has(d[..i], d[i].name)
    ensures Put(d[..i], d[i].name, d[i].value) == d[..i + 1]
  {
  }

  /** The default weights, written as a dictionary, are looked up as they are defined. */
  lemma WeightIsLookup(factors: Dict, given: Option<Dict>, weights: Dict, i: nat)
    requires i < |factors|
    requires weights == if given == None then Same(factors, EqualShare(1.0, |factors|)) else given.value
    ensures Get(weights, factors[i].name) == WeightOf(given, |factors|, factors[i].name)
  {
    if given == None {
      GetAt(weights, i);
    }
  }

  lemma ShareScales(part: real, whole: real, amount: real)
    requires whole != 0.0
    ensures Share(part, whole, amount) == part * (amount / whole)
    ensures whole * (amount / whole) == amount
  {
  }

  lemma DistributeShare(sum: real, part: real, scale: real)
    ensures sum * scale + part * scale == (sum + part) * scale
  {
  }

  lemma {:induction false} SharesTotal(factors: Dict, weights: Option<Dict>, count: nat, whole: real, pnl: real)
    requires count > 0 && whole != 0.0
    ensures Total(Shares(factors, weights, count, whole, pnl)) == WeightSum(factors, weights, count) * (pnl / whole)
  {
    hide Share, WeightOf;
    var scale := pnl / whole;
    if |factors| > 0 {
      var n := |factors| - 1;
      var before, last := factors[..n], WeightOf(weights, count, factors[n].name);
      SharesTotal(before, weights, count, whole, pnl);
      assert Shares(factors, weights, count, whole, pnl)[..n] == Shares(before, weights, count, whole, pnl);
      ShareScales(last, whole, pnl);
      DistributeShare(WeightSum(before, weights, count), last, scale);
    }
  }

  lemma EqualSharesSum(factors: Dict, pnl: real)
    requires |factors| > 0
    ensures Total(Same(factors, EqualShare(pnl, |factors|))) == pnl
  {
    hide Same, Total;
    var n := |factors| as real;
    SameTotal(factors, pnl / n);
    ShareScales(1.0, n, pnl);
  }

  lemma WeightedSharesSum(factors: Dict, weights: Option<Dict>, pnl: real)
    requires |factors| > 0 && WeightSum(factors, weights, |factors|) != 0.0
    ensures Total(Shares(factors, weights, |factors|, WeightSum(factors, weights, |factors|), pnl)) == pnl
  {
    hide Shares, Total, WeightSum;
    var whole := WeightSum(factors, weights, |factors|);
    SharesTotal(factors, weights, |factors|, whole, pnl);
    ShareScales(1.0, whole, pnl);
  }

  /** The attributions of a trade sum to its profit, unless there is a profit and no factor to attribute it to. */
  lemma AttributionSumsIff(pnl: real, factors: Dict, weights: Option<Dict>)
    ensures Total(TradeAttribution(pnl, factors, weights)) == pnl <==> factors != [] || pnl == 0.0
  {
    hide Share, EqualShare, WeightOf, WeightSum, Shares, Same;
    if |factors| > 0 {
      if pnl == 0.0 {
        SameTotal(factors, 0.0);
      } else if WeightSum(factors, weights, |factors|) == 0.0 {
        EqualSharesSum(factors, pnl);
      } else {
        WeightedSharesSum(factors, weights, pnl);
      }
    }
  }

  /** The given weights of all named factors together; a factor without one weighs nothing. */
  function NamedWeight(factors: seq<Entry>, weights: Dict): real {
    if |factors| == 0 then 0.0
    else NamedWeight(factors[..|factors| - 1], weights) + Get(weights, factors[|factors| - 1].name)
  }

  lemma {:induction false} WeightSumIsNamed(factors: seq<Entry>, weights: Dict, count: nat)
    requires count > 0
    ensures WeightSum(factors, Some(weights), count) == NamedWeight(factors, weights)
  {
    hide Get;
    if |factors| > 0 {
      WeightSumIsNamed(factors[..|factors| - 1], weights, count);
    }
  }

  /** Without given weights, or when those of the factors sum to nothing, all factors get the same. */
  lemma SharedEqually(pnl: real, factors: Dict, weights: Option<Dict>)
    requires weights.None? || NamedWeight(factors, weights.value) == 0.0
    ensures AllEqual(TradeAttribution(pnl, factors, weights))
  {
    hide Share, EqualShare, WeightSum, NamedWeight;
    if weights.Some? && |factors| > 0 {
      WeightSumIsNamed(factors, weights.value, |factors|);
    }
  }

  predicate AllEqual(r: Dict) {
    forall i, j :: 0 <= i < |r| && 0 <= j < |r| ==> r[i].value == r[j].value
  }

  /** `u` to `v` is as `a` to `b`. */
  predicate AsTo(u: real, v: real, a: real, b: real) {
    u * b == v * a
  }

  predicate Proportional(r: Dict, weights: Dict) {
    forall i, j :: 0 <= i < |r| && 0 <= j < |r| ==>
      AsTo(r[i].value, r[j].value, Get(weights, r[i].name), Get(weights, r[j].name))
  }

  lemma SharesAsTo(a: real, b: real, whole: real, amount: real)
    requires whole != 0.0
    ensures AsTo(Share(a, whole, amount), Share(b, whole, amount), a, b)
  {
    assert Share(a, whole, amount) * b == a / whole * (amount * b);
    assert a / whole * b == b / whole * a;
  }

  lemma NothingAsTo(a: real, b: real)
    ensures AsTo(0.0, 0.0, a, b)
  {
  }

  /** With given weights that sum to something the factors' parts are as their weights. */
  lemma SharedByWeight(pnl: real, factors: Dict, weights: Dict)
    requires NamedWeight(factors, weights) != 0.0
    ensures Proportional(TradeAttribution(pnl, factors, Some(weights)), weights)
  {
    hide Share, EqualShare, WeightSum, NamedWeight, Get, AsTo;
    var r := TradeAttribution(pnl, factors, Some(weights));
    if |factors| > 0 {
      WeightSumIsNamed(factors, weights, |factors|);
      forall i, j | 0 <= i < |r| && 0 <= j < |r|
        ensures AsTo(r[i].value, r[j].value, Get(weights, r[i].name), Get(weights, r[j].name))
      {
        SharesAsTo(Get(weights, r[i].name), Get(weights, r[j].name), NamedWeight(factors, weights), pnl);
        NothingAsTo(Get(weights, r[i].name), Get(weights, r[j].name));
      }
    }
  }

  /** A trade's profit is attributed to its factors, in their order: in proportion to the given weights when those of
      the factors do not sum to zero, and in equal parts otherwise. */
  lemma AttributionIsProportional(pnl: real, factors: Dict, weights: Option<Dict>)
    ensures var r := TradeAttribution(pnl, factors, weights);
            && |r| == |factors| && (forall i :: 0 <= i < |r| ==> r[i].name == factors[i].name)
            && if weights.None? || NamedWeight(factors, weights.value) == 0.0 then AllEqual(r)
               else Proportional(r, weights.value)
  {
    hide AllEqual, Proportional, NamedWeight, TradeAttribution;
    NamesKept(pnl, factors, weights);
    if weights.None? || NamedWeight(factors, weights.value) == 0.0 {
      SharedEqually(pnl, factors, weights);
    } else {
      SharedByWeight(pnl, factors, weights.value);
    }
  }

  lemma NamesKept(pnl: real, factors: Dict, weights: Option<Dict>)
    ensures var r := TradeAttribution(pnl, factors, weights);
            |r| == |factors| && forall i :: 0 <= i < |r| ==> r[i].name == factors[i].name
  {
    hide Share, EqualShare, WeightSum;
  }

  lemma PairOf(x: Entry, y: Entry)
    requires x.name != y.name
    ensures UniqueNames([x, y]) && Total([x, y]) == x.value + y.value
    ensures Get([x, y], x.name) == x.value && Get([x, y], y.name) == y.value
  {
    hide Total, Get, Has;
    EmptyDict(x.name);
    AppendEntry([], x, x.name);
    AppendEntry([x], y, x.name);
    AppendEntry([x], y, y.name);
    assert [] + [x] == [x] && [x] + [y] == [x, y];
  }

  lemma PairWeight(x: Entry, y: Entry, weights: Dict)
    ensures NamedWeight([x, y], weights) == Get(weights, x.name) + Get(weights, y.name)
  {
    hide Get;
    assert [x, y][..1] == [x] && [x][..0] == [];
    assert NamedWeight([], weights) == 0.0;
    assert NamedWeight([x], weights) == Get(weights, x.name);
  }

  /** The documentation's example: weights of 0.6 and 0.4 divide a profit of 100 into 60 and 40. */
  lemma SixtyForty(a: string, b: string, scores: (real, real))
    requires a != b
    ensures var factors: seq<Entry> := [Entry(a, scores.0), Entry(b, scores.1)];
            var weights: seq<Entry> := [Entry(a, 0.6), Entry(b, 0.4)];
            && UniqueNames(factors) && UniqueNames(weights)
            && TradeAttribution(100.0, factors, Some(weights)) == [Entry(a, 60.0), Entry(b, 40.0)]
  {
    hide TradeAttribution, NamedWeight, Total, Get, UniqueNames;
    var x, y := Entry(a, scores.0), Entry(b, scores.1);
    PairOf(x, y);
    PairOf(Entry(a, 0.6), Entry(b, 0.4));
    var weights: Dict := [Entry(a, 0.6), Entry(b, 0.4)];
    PairWeight(x, y, weights);
    AttributionIsProportional(100.0, [x, y], Some(weights));
    AttributionSumsIff(100.0, [x, y], Some(weights));
    var r := TradeAttribution(100.0, [x, y], Some(weights));
    assert AsTo(r[0].value, r[1].value, 0.6, 0.4);
    PairOf(r[0], r[1]);
    assert r == [r[0], r[1]];
  }

  // --------------------------------------------------------------------------------------------
  // All trades
  // --------------------------------------------------------------------------------------------

  function SumAll(attributions: seq<Dict>): Dict {
    if |attributions| == 0 then []
    else AddAll(SumAll(attributions[..|attributions| - 1]), attributions[|attributions| - 1])
  }

  function Summary(attributions: seq<Dict>): Dict {
    var sums := SumAll(attributions);
    if |sums| == 0 then [] else Put(sums, "total", Total(sums))
  }

  function GrandTotal(attributions: seq<Dict>): real {
    if |attributions| == 0 then 0.0
    else GrandTotal(attributions[..|attributions| - 1]) + Total(attributions[|attributions| - 1])
  }

  function TotalOf(attributions: seq<Dict>, name: string): real {
    if |attributions| == 0 then 0.0
    else TotalOf(attributions[..|attributions| - 1], name) + Get(attributions[|attributions| - 1], name)
  }

  /** Entering a name with zero before adding to it is the same as adding to what it has. */
  lemma PutTwice(d: Dict, name: string, value: real)
    ensures var entered := if Has(d, name) then d else Put(d, name, 0.0);
            Put(entered, name, Get(entered, name) + value) == Put(d, name, Get(d, name) + value)
  {
    if !Has(d, name) {
      AbsentIsZero(d, name);
      PutEffect(d, name, 0.0, name);
      assert Put(d, name, 0.0)[|d|] == Entry(name, 0.0);
    }
  }

  method CalculateSummary(attributions: seq<Dict>) returns (summary: Dict)
    ensures summary == Summary(attributions)
  {
    hide Put, Get, Has, Total;
    if |attributions| == 0 {
      return [];
    }
    summary := [];
    for i := 0 to |attributions|
      invariant summary == SumAll(attributions[..i])
    {
      var attribution := attributions[i];
      assert attributions[..i + 1][..i] == attributions[..i];
      ghost var before := summary;
      for j := 0 to |attribution|
        invariant summary == AddAll(before, attribution[..j])
      {
        assert attribution[..j + 1][..j] == attribution[..j];
        var e := attribution[j];
        ghost var was := summary;
        if !Has(summary, e.name) {
          summary := Put(summary, e.name, 0.0);
        }
        summary := Put(summary, e.name, Get(summary, e.name) + e.value);
        PutTwice(was, e.name, e.value);
      }
      assert attribution[..|attribution|] == attribution;
    }
    assert attributions[..|attributions|] == attributions;
    if |summary| > 0 {
      summary := Put(summary, "total", Total(summary));
    }
  }

  lemma {:induction false} SumAllEffect(attributions: seq<Dict>, name: string)
    ensures Total(SumAll(attributions)) == GrandTotal(attributions)
    ensures Get(SumAll(attributions), name) == TotalOf(attributions, name)
    ensures Has(SumAll(attributions), name) <==> exists i :: 0 <= i < |attributions| && Has(attributions[i], name)
  {
    hide Has, Get, Total, AddAll;
    if |attributions| == 0 {
      EmptyDict(name);
    } else {
      var n := |attributions| - 1;
      SumAllEffect(attributions[..n], name);
      AddAllEffect(SumAll(attributions[..n]), attributions[n], name);
    }
  }

  /** A summary gives each factor its total over the trades, and under "total" the total over everything, that of a
      factor of this name included. Leaving out "total", it sums to the attributed profit exactly when no profit is
      attributed to a factor of that name. */
  lemma SummaryMeans(attributions: seq<Dict>, name: string)
    ensures var s := Summary(attributions);
            && (name != "total" ==> Get(s, name) == TotalOf(attributions, name))
            && (s != [] ==> Has(s, "total") && Get(s, "total") == GrandTotal(attributions))
            && (s == [] ==> GrandTotal(attributions) == 0.0)
            && Total(s) - Get(s, "total") == GrandTotal(attributions) - TotalOf(attributions, "total")
  {
    hide Put, SumAll, GrandTotal, TotalOf;
    var sums := SumAll(attributions);
    SumAllEffect(attributions, name);
    SumAllEffect(attributions, "total");
    if |sums| > 0 {
      PutEffect(sums, "total", Total(sums), name);
      PutEffect(sums, "total", Total(sums), "total");
    }
  }
}
