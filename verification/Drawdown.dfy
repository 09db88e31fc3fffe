/** The one-pass drawdown of backend/src/backtest/metrics.py. */
module Drawdown {
  import opened Common

  function Max(a: real, b: real): real {
    if a >= b then a else b
  }

  /** The highest of the first `n` equities. */
  function RunningPeak(e: seq<real>, n: nat): (p: real)
    requires 0 < n <= |e|
    ensures forall i :: 0 <= i < n ==> e[i] <= p
    ensures exists i :: 0 <= i < n && e[i] == p
  {
    if n == 1 then e[0] else Max(RunningPeak(e, n - 1), e[n - 1])
  }

  /** The decline from `high` to `low`, as a fraction of `high`. */
  function Decline(high: real, low: real): real
    requires high > 0.0
  {
    (high - low) / high
  }

  /** The decline of point `j` from the peak so far; zero while no peak is positive. */
  function DeclineFromPeak(e: seq<real>, j: nat): real
    requires j < |e|
  {
    var peak := RunningPeak(e, j + 1);
    if peak > 0.0 then Decline(peak, e[j]) else 0.0
  }

  /** `d` is the largest decline of the first `n` points from their running peaks; zero if there is none. */
  ghost predicate IsPeakToTrough(e: seq<real>, n: nat, d: real)
    requires n <= |e|
  {
    && d >= 0.0
    && (forall j :: 0 <= j < n ==> DeclineFromPeak(e, j) <= d)
    && (d > 0.0 ==> exists j :: 0 <= j < n && DeclineFromPeak(e, j) == d)
  }

  /** `d` is the maximum over every pair of an earlier (or equal) positive point and a later one. */
  ghost predicate IsMaxOverPairs(e: seq<real>, d: real) {
    && (forall i, j :: 0 <= i <= j < |e| && e[i] > 0.0 ==> Decline(e[i], e[j]) <= d)
    && (exists i, j :: 0 <= i <= j < |e| && e[i] > 0.0 && Decline(e[i], e[j]) == d)
  }

  lemma PeakToTroughExtends(e: seq<real>, n: nat, d: real, d': real)
    requires n < |e| && IsPeakToTrough(e, n, d) && d' == Max(d, DeclineFromPeak(e, n))
    ensures IsPeakToTrough(e, n + 1, d')
  {
    hide DeclineFromPeak;
  }

  method ComputeMaxDrawdown(e: seq<real>) returns (maxDrawdown: real)
    ensures IsPeakToTrough(e, |e|, maxDrawdown)
  {
    assert IsPeakToTrough(e, 0, 0.0);
    hide Decline, IsPeakToTrough;
    if |e| < 2 {
      if |e| == 1 {
        DeclineToSelf(e[0]);
        PeakToTroughExtends(e, 0, 0.0, 0.0);
      }
      return 0.0;
    }
    maxDrawdown := 0.0;
    var peak := e[0];
    var n := 0;
    while n < |e|
      invariant 0 <= n <= |e|
      invariant peak == if n == 0 then e[0] else RunningPeak(e, n)
      invariant maxDrawdown >= 0.0 && IsPeakToTrough(e, n, maxDrawdown)
    {
      var equity := e[n];
      ghost var before := maxDrawdown;
      if equity > peak {
        peak := equity;
        DeclineToSelf(peak);
      } else if peak > 0.0 {
        var drawdown := Decline(peak, equity);
        if drawdown > maxDrawdown {
          maxDrawdown := drawdown;
        }
      }
      PeakToTroughExtends(e, n, before, maxDrawdown);
      n := n + 1;
    }
  }

  lemma DeclineToSelf(high: real)
    ensures high > 0.0 ==> Decline(high, high) == 0.0
  {
  }

  lemma LessTimes(x: real, y: real, h: real)
    requires x < y && h > 0.0
    ensures x * h < y * h
  {
  }

  lemma TimesGrows(y: real, h: real, p: real)
    requires h <= p
    ensures y >= 0.0 ==> y * h <= y * p
    ensures y <= 0.0 ==> y * h >= y * p
  {
  }

  lemma SignOfQuotient(y: real, p: real)
    requires p > 0.0
    ensures y > 0.0 <==> y * p > 0.0
    ensures y < 0.0 <==> y * p < 0.0
  {
  }

  lemma Undivide(high: real, low: real)
    requires high > 0.0
    ensures (1.0 - Decline(high, low)) * high == low
  {
    var d := Decline(high, low);
    assert d * high == high - low;
  }

  /** Of two quotients of the same number, the one by the smaller divisor lies further from zero. */
  lemma CompareQuotients(high: real, peak: real, low: real, a: real, b: real)
    requires 0.0 < high <= peak && a * high == low && b * peak == low
    ensures low >= 0.0 ==> a >= b >= 0.0
    ensures low > 0.0 ==> b > 0.0
    ensures low < 0.0 ==> a <= b < 0.0
  {
    SignOfQuotient(b, peak);
    TimesGrows(b, high, peak);
    if a < b {
      LessTimes(a, b, high);
    }
    if b < a {
      LessTimes(b, a, high);
    }
  }

  /** A non-negative point is further down from a higher peak, by at most one, and less than one if it is positive; a
      negative point is further down from a lower peak. */
  lemma DeclineBounds(high: real, peak: real, low: real)
    requires 0.0 < high <= peak
    ensures low >= 0.0 ==> Decline(high, low) <= Decline(peak, low) <= 1.0
    ensures low > 0.0 ==> Decline(peak, low) < 1.0
    ensures low < 0.0 ==> Decline(high, low) >= Decline(peak, low) > 1.0
  {
    hide Decline;
    Undivide(high, low);
    Undivide(peak, low);
    CompareQuotients(high, peak, low, 1.0 - Decline(high, low), 1.0 - Decline(peak, low));
  }

  // --------------------------------------------------------------------------------------------
  // One pass against all pairs
  // --------------------------------------------------------------------------------------------

  /** The lowest positive one of the first `n` equities, if any is positive. */
  function LowestPositive(e: seq<real>, n: nat): (low: Option<real>)
    requires n <= |e|
    ensures low.Some? ==> low.value > 0.0 && exists i :: 0 <= i < n && e[i] == low.value
    ensures forall i :: 0 <= i < n && e[i] > 0.0 ==> low.Some? && low.value <= e[i]
  {
    if n == 0 then None
    else
      var before := LowestPositive(e, n - 1);
      if e[n - 1] > 0.0 && (before.None? || e[n - 1] < before.value) then Some(e[n - 1]) else before
  }

  /** The largest decline of point `j` from any earlier or equal positive point, in closed form: from the running peak
      down to zero, and from the lowest positive point below it. */
  function WorstDecline(e: seq<real>, j: nat): real
    requires j < |e| && LowestPositive(e, j + 1).Some?
  {
    if e[j] < 0.0 then Decline(LowestPositive(e, j + 1).value, e[j]) else DeclineFromPeak(e, j)
  }

  lemma WorstDeclineIsWorst(e: seq<real>, j: nat)
    requires j < |e| && LowestPositive(e, j + 1).Some?
    ensures forall i :: 0 <= i <= j && e[i] > 0.0 ==> Decline(e[i], e[j]) <= WorstDecline(e, j)
    ensures exists i :: 0 <= i <= j && e[i] > 0.0 && Decline(e[i], e[j]) == WorstDecline(e, j)
    ensures DeclineFromPeak(e, j) <= WorstDecline(e, j)
  {
    hide Decline;
    var low, peak := LowestPositive(e, j + 1).value, RunningPeak(e, j + 1);
    forall i | 0 <= i <= j && e[i] > 0.0
      ensures Decline(e[i], e[j]) <= WorstDecline(e, j)
    {
      DeclineBounds(e[i], peak, e[j]);
      DeclineBounds(low, e[i], e[j]);
    }
    var k :| 0 <= k < j + 1 && e[k] == low;
    var m :| 0 <= m < j + 1 && e[m] == peak;
    assert Decline(e[k], e[j]) == Decline(low, e[j]) && Decline(e[m], e[j]) == Decline(peak, e[j]);
    DeclineBounds(low, peak, e[j]);
  }

  /** Some point is positive, and no point below zero is further down from the lowest positive point before it than
      some point is from its running peak. */
  ghost predicate PeaksDecide(e: seq<real>) {
    && (exists i :: 0 <= i < |e| && e[i] > 0.0)
    && forall j :: 0 <= j < |e| && e[j] < 0.0 && LowestPositive(e, j + 1).Some? ==>
         exists k :: 0 <= k < |e| && WorstDecline(e, j) <= DeclineFromPeak(e, k)
  }

  /** Comparing each point with the running peak only comes to the maximum over all pairs exactly on these curves. */
  lemma OnePassIsMaxIff(e: seq<real>, d: real)
    requires IsPeakToTrough(e, |e|, d)
    ensures IsMaxOverPairs(e, d) <==> PeaksDecide(e)
  {
    hide Decline, WorstDecline, DeclineFromPeak;
    if IsMaxOverPairs(e, d) {
      forall j | 0 <= j < |e| && e[j] < 0.0 && LowestPositive(e, j + 1).Some?
        ensures exists k :: 0 <= k < |e| && WorstDecline(e, j) <= DeclineFromPeak(e, k)
      {
        WorstDeclineIsWorst(e, j);
        FallBelowZero(e, j);
        var k :| 0 <= k < |e| && DeclineFromPeak(e, k) == d;
      }
    }
    if PeaksDecide(e) {
      forall j | 0 <= j < |e| && e[j] < 0.0 && LowestPositive(e, j + 1).Some?
        ensures WorstDecline(e, j) <= d
      {
        var k :| 0 <= k < |e| && WorstDecline(e, j) <= DeclineFromPeak(e, k);
      }
      AllPairsBelow(e, d);
      DeclineAttained(e, d);
    }
  }

  /** A fall below zero is one of more than everything. */
  lemma FallBelowZero(e: seq<real>, j: nat)
    requires j < |e| && e[j] < 0.0 && LowestPositive(e, j + 1).Some?
    ensures WorstDecline(e, j) > 1.0
  {
    hide Decline;
    var low := LowestPositive(e, j + 1).value;
    DeclineBounds(low, low, e[j]);
  }

  lemma AllPairsBelow(e: seq<real>, d: real)
    requires IsPeakToTrough(e, |e|, d)
    requires forall j :: 0 <= j < |e| && e[j] < 0.0 && LowestPositive(e, j + 1).Some? ==> WorstDecline(e, j) <= d
    ensures forall i, j :: 0 <= i <= j < |e| && e[i] > 0.0 ==> Decline(e[i], e[j]) <= d
  {
    hide Decline;
    forall i, j | 0 <= i <= j < |e| && e[i] > 0.0
      ensures Decline(e[i], e[j]) <= d
    {
      WorstDeclineIsWorst(e, j);
      assert DeclineFromPeak(e, j) <= d;
    }
  }

  lemma DeclineAttained(e: seq<real>, d: real)
    requires exists i :: 0 <= i < |e| && e[i] > 0.0
    requires IsPeakToTrough(e, |e|, d)
    ensures exists i, j :: 0 <= i <= j < |e| && e[i] > 0.0 && Decline(e[i], e[j]) == d
  {
    hide Decline;
    if d > 0.0 {
      var j :| 0 <= j < |e| && DeclineFromPeak(e, j) == d;
      var peak := RunningPeak(e, j + 1);
      var i :| 0 <= i < j + 1 && e[i] == peak;
      assert Decline(e[i], e[j]) == d;
    } else {
      var i :| 0 <= i < |e| && e[i] > 0.0;
      DeclineToSelf(e[i]);
    }
  }

  /** On a curve that never goes below zero and is positive somewhere the two always agree. */
  lemma OnePassIsMaxOverPairs(e: seq<real>, d: real)
    requires forall i :: 0 <= i < |e| ==> e[i] >= 0.0
    requires exists i :: 0 <= i < |e| && e[i] > 0.0
    requires IsPeakToTrough(e, |e|, d)
    ensures IsMaxOverPairs(e, d)
    ensures 0.0 <= d <= 1.0
    ensures (forall i :: 0 <= i < |e| ==> e[i] > 0.0) ==> d < 1.0
  {
    hide Decline, IsMaxOverPairs;
    OnePassIsMaxIff(e, d);
    if d > 0.0 {
      var j :| 0 <= j < |e| && DeclineFromPeak(e, j) == d;
      var peak := RunningPeak(e, j + 1);
      DeclineBounds(peak, peak, e[j]);
    }
  }

  /** Without the floor at zero the two readings differ: after a loss below zero, an earlier lower peak gives the
      larger fraction. */
  lemma NegativeEquityBreaksTheMaximum()
    ensures var e := [1.0, 2.0, -2.0];
            IsPeakToTrough(e, 3, 2.0) && WorstDecline(e, 2) == 3.0 && !IsMaxOverPairs(e, 2.0)
  {
    var e := [1.0, 2.0, -2.0];
    assert RunningPeak(e, 1) == 1.0 && RunningPeak(e, 2) == 2.0 && RunningPeak(e, 3) == 2.0;
    assert DeclineFromPeak(e, 0) == 0.0 && DeclineFromPeak(e, 1) == 0.0 && DeclineFromPeak(e, 2) == 2.0;
    assert LowestPositive(e, 1) == Some(1.0) && LowestPositive(e, 2) == Some(1.0) && LowestPositive(e, 3) == Some(1.0);
    assert Decline(e[0], e[2]) == 3.0;
  }
}
