/**
 * The drawdown loop, in the two forms the repository writes it (research/metrics.py:105-114;
 * backtest/strategy_engine.py:99-101, validation/quality.py:181-185, validation/dca_validation.py:124-128).
 */
module Drawdown {
  import opened Prelude

  /** Cumulative equity after the first i returns. */
  function Equity(pnls: seq<real>, i: nat): real
    requires i <= |pnls|
  {
    if i == 0 then 0.0 else Equity(pnls, i - 1) + pnls[i - 1]
  }

  function Peak(pnls: seq<real>, i: nat): real
    requires i <= |pnls|
  {
    if i == 0 then 0.0 else Max(Peak(pnls, i - 1), Equity(pnls, i))
  }

  /** The running drawdown after the first i returns. */
  function Drop(pnls: seq<real>, i: nat): real
    requires i <= |pnls|
  {
    if i == 0 then 0.0 else Max(Drop(pnls, i - 1), Peak(pnls, i) - Equity(pnls, i))
  }

  /** `max_drawdown`: the most negative distance from the running peak, as a positive number. */
  method MaxDrawdown(pnls: seq<real>) returns (drawdown: Option<real>)
    ensures drawdown == if pnls == [] then None else Some(Drop(pnls, |pnls|))
  {
    if pnls == [] { return None; }
    var equity, peak, worst := 0.0, 0.0, 0.0;
    for i := 0 to |pnls|
      invariant equity == Equity(pnls, i) && peak == Peak(pnls, i)
      invariant worst == -Drop(pnls, i) && worst <= 0.0
    {
      equity := equity + pnls[i];
      peak := Max(peak, equity);
      worst := Min(worst, equity - peak);
    }
    return Some(Abs(worst));
  }

  /** The loop of the backtest, of the signal quality and of the DCA arms; zero for no trades. */
  method RunningDrawdown(values: seq<real>) returns (drawdown: real)
    ensures drawdown == Drop(values, |values|)
  {
    var equity, peak := 0.0, 0.0;
    drawdown := 0.0;
    for i := 0 to |values|
      invariant equity == Equity(values, i) && peak == Peak(values, i) && drawdown == Drop(values, i)
    {
      equity := equity + values[i];
      peak := Max(peak, equity);
      drawdown := Max(drawdown, peak - equity);
    }
  }

  lemma {:induction false} PeakIsHighest(pnls: seq<real>, j: nat)
    requires j <= |pnls|
    ensures forall i | 0 <= i <= j :: Equity(pnls, i) <= Peak(pnls, j)
    ensures exists i | 0 <= i <= j :: Equity(pnls, i) == Peak(pnls, j)
  {
    if j == 0 {
      assert Equity(pnls, 0) == Peak(pnls, 0);
    } else {
      PeakIsHighest(pnls, j - 1);
      if Peak(pnls, j) == Equity(pnls, j) {
      } else {
        var i :| 0 <= i <= j - 1 && Equity(pnls, i) == Peak(pnls, j - 1);
        assert Equity(pnls, i) == Peak(pnls, j);
      }
    }
  }

  ghost predicate Falls(pnls: seq<real>, i: nat, j: nat, amount: real) {
    i <= j <= |pnls| && Equity(pnls, i) - Equity(pnls, j) == amount
  }

  /** The drawdown is the largest fall from any moment to any later one, and some pair of moments attains it. */
  lemma {:induction false} DropIsLargestFall(pnls: seq<real>, n: nat)
    requires n <= |pnls|
    ensures forall i, j | 0 <= i <= j <= n :: Equity(pnls, i) - Equity(pnls, j) <= Drop(pnls, n)
    ensures exists i: nat, j: nat :: j <= n && Falls(pnls, i, j, Drop(pnls, n))
  {
    if n == 0 {
      assert Falls(pnls, 0, 0, Drop(pnls, 0));
    } else {
      DropIsLargestFall(pnls, n - 1);
      PeakIsHighest(pnls, n);
      if Drop(pnls, n) == Drop(pnls, n - 1) {
        var i: nat, j: nat :| j <= n - 1 && Falls(pnls, i, j, Drop(pnls, n - 1));
        assert Falls(pnls, i, j, Drop(pnls, n));
      } else {
        var i :| 0 <= i <= n && Equity(pnls, i) == Peak(pnls, n);
        assert Falls(pnls, i, n, Drop(pnls, n));
      }
    }
  }

  lemma {:induction false} SamePrefix(a: seq<real>, b: seq<real>, i: nat)
    requires i <= |a| && a <= b
    ensures Equity(a, i) == Equity(b, i) && Peak(a, i) == Peak(b, i) && Drop(a, i) == Drop(b, i)
  {
    if i > 0 {
      SamePrefix(a, b, i - 1);
      assert a[i - 1] == b[i - 1];
    }
  }

  lemma {:induction false} DropRises(pnls: seq<real>, m: nat, n: nat)
    requires m <= n <= |pnls|
    ensures 0.0 <= Drop(pnls, m) <= Drop(pnls, n)
  {
    if m < n {
      DropRises(pnls, m, n - 1);
    } else if m > 0 {
      DropRises(pnls, m - 1, n - 1);
    }
  }

  /** More returns never make the drawdown smaller. */
  lemma AppendingNeverHeals(pnls: seq<real>, more: seq<real>)
    ensures Drop(pnls, |pnls|) <= Drop(pnls + more, |pnls + more|)
  {
    SamePrefix(pnls, pnls + more, |pnls|);
    DropRises(pnls + more, |pnls|, |pnls + more|);
  }

  /** No run of returns that only gains has a drawdown, and one losing return is enough to have one. */
  lemma DropIsZeroWhenNothingFalls(pnls: seq<real>)
    ensures Drop(pnls, |pnls|) == 0.0 <==> forall i | 0 <= i < |pnls| :: pnls[i] >= 0.0
  {
    DropIsLargestFall(pnls, |pnls|);
    DropRises(pnls, 0, |pnls|);
    if forall i | 0 <= i < |pnls| :: pnls[i] >= 0.0 {
      var i: nat, j: nat :| j <= |pnls| && Falls(pnls, i, j, Drop(pnls, |pnls|));
      EquityRises(pnls, i, j);
    } else {
      var k :| 0 <= k < |pnls| && pnls[k] < 0.0;
      assert Equity(pnls, k) - Equity(pnls, k + 1) == -pnls[k];
    }
  }

  lemma {:induction false} EquityRises(pnls: seq<real>, i: nat, j: nat)
    requires i <= j <= |pnls| && forall k | 0 <= k < |pnls| :: pnls[k] >= 0.0
    ensures Equity(pnls, i) <= Equity(pnls, j)
  {
    if i < j { EquityRises(pnls, i, j - 1); }
  }
}
