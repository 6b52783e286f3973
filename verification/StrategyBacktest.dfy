/** The close-to-close simulation of a strategy's events (backtest/strategy_engine.py:66-115). */
module StrategyBacktest {
  import opened Prelude
  import opened Timeframes
  import opened Directions
  import Drawdown

  datatype Decision = SIMULATE | EXIT | INVALIDATE | PASS

  /** The context stands for regime, session and biases, which the run copies from the opening event. */
  datatype StrategyEvent = StrategyEvent(
    timestamp: int, price: real, decision: Decision, direction: Option<Direction>,
    sourceTimestamp: Option<int>, context: string)

  datatype Costs = Costs(spread: real, commission: real, slippage: real)

  datatype Trade = Trade(
    entryTime: int, exitTime: int, direction: Option<Direction>, gross: real, fees: real, slippage: real, net: real,
    holding: int, context: string, dcaDepth: nat, timeExit: bool)

  datatype Error = FutureDerived

  function TimeOf(e: StrategyEvent): real { e.timestamp as real }

  /** An event derived from data that was not known at its own time. */
  predicate LooksAhead(e: StrategyEvent) { e.sourceTimestamp.Some? && e.sourceTimestamp.value > e.timestamp }

  predicate Opens(e: StrategyEvent) { e.decision == SIMULATE && e.direction.Some? }

  predicate Closes(e: StrategyEvent) { e.decision == EXIT || e.decision == INVALIDATE }

  function TradeOf(costs: Costs, open: StrategyEvent, close: StrategyEvent): Trade {
    var gross := (if open.direction == Some(LONG) then 1.0 else -1.0) * (close.price - open.price);
    var fees, slip := costs.spread + 2.0 * costs.commission, 2.0 * costs.slippage;
    Trade(open.timestamp, close.timestamp, open.direction, gross, fees, slip, gross - fees - slip,
          close.timestamp - open.timestamp, open.context, 0, close.decision == EXIT)
  }

  /** The trades still to come from event i on, with at most one position open. */
  function Play(costs: Costs, ordered: seq<StrategyEvent>, i: nat, open: Option<StrategyEvent>): seq<Trade>
    requires i <= |ordered|
    decreases |ordered| - i
  {
    if i == |ordered| then []
    else if open.None? && Opens(ordered[i]) then Play(costs, ordered, i + 1, Some(ordered[i]))
    else if open.Some? && Closes(ordered[i]) then
      [TradeOf(costs, open.value, ordered[i])] + Play(costs, ordered, i + 1, None)
    else Play(costs, ordered, i + 1, open)
  }

  ghost predicate Causal(events: seq<StrategyEvent>) { forall i | 0 <= i < |events| :: !LooksAhead(events[i]) }

  /** What one event does to the open position and the trades. */
  function AfterEvent(
    costs: Costs, event: StrategyEvent, open: Option<StrategyEvent>): (Option<StrategyEvent>, seq<Trade>)
  {
    if open.None? && Opens(event) then (Some(event), [])
    else if open.Some? && Closes(event) then (None, [TradeOf(costs, open.value, event)])
    else (open, [])
  }

  lemma PlayOne(costs: Costs, ordered: seq<StrategyEvent>, i: nat, open: Option<StrategyEvent>, trades: seq<Trade>)
    requires i < |ordered|
    ensures var (next, closed) := AfterEvent(costs, ordered[i], open);
      trades + Play(costs, ordered, i, open) == trades + closed + Play(costs, ordered, i + 1, next)
  {
  }

  /** The loop of `run`: an event that looks ahead refuses the whole run. */
  method Simulate(costs: Costs, ordered: seq<StrategyEvent>) returns (result: Result<seq<Trade>, Error>)
    ensures result.Ok? <==> Causal(ordered)
    ensures result.Ok? ==> result.value == Play(costs, ordered, 0, None)
  {
    var open: Option<StrategyEvent> := None;
    var trades := [];
    for i := 0 to |ordered|
      invariant forall k | 0 <= k < i :: !LooksAhead(ordered[k])
      invariant trades + Play(costs, ordered, i, open) == Play(costs, ordered, 0, None)
    {
      var event := ordered[i];
      if LooksAhead(event) { return Err(FutureDerived); }
      PlayOne(costs, ordered, i, open, trades);
      if open.None? && event.decision == SIMULATE && event.direction.Some? {
        open := Some(event);
      } else if open.Some? && (event.decision == EXIT || event.decision == INVALIDATE) {
        trades := trades + [TradeOf(costs, open.value, event)];
        open := None;
      }
    }
    return Ok(trades);
  }

  /** `run`: the trades of the events sorted by time, and their metrics. */
  method Run(costs: Costs, events: seq<StrategyEvent>, root: real -> real)
    returns (result: Result<(seq<Trade>, Metrics), Error>)
    ensures result.Ok? <==> Causal(events)
    ensures result.Ok? ==> result.value.0 == Play(costs, SortBy(events, TimeOf), 0, None)
    ensures result.Ok? ==> result.value.1 == MetricsOf(result.value.0, root)
  {
    CausalInAnyOrder(events);
    var simulated := Simulate(costs, SortBy(events, TimeOf));
    if simulated.Err? { return Err(simulated.error); }
    var metrics := PerformanceMetrics(simulated.value, root);
    return Ok((simulated.value, metrics));
  }

  lemma CausalInAnyOrder(events: seq<StrategyEvent>)
    ensures Causal(SortBy(events, TimeOf)) <==> Causal(events)
  {
    var ordered := SortBy(events, TimeOf);
    SortByOrders(events, TimeOf);
    SameMembers(events, ordered);
    CausalMembers(events);
    CausalMembers(ordered);
  }

  lemma CausalMembers(events: seq<StrategyEvent>)
    ensures Causal(events) <==> forall e | e in events :: !LooksAhead(e)
  {
    if Causal(events) {
      forall e | e in events ensures !LooksAhead(e) {
        var i :| 0 <= i < |events| && events[i] == e;
      }
    }
  }

  // ------------------------------------------------------------------- metrics

  /** Gross profit over gross loss; a record without losses has no ratio. */
  datatype ProfitFactor = Undefined | Infinite | Ratio(value: real)

  datatype Metrics = Metrics(
    totalTrades: nat, winRate: real, lossRate: real, profitFactor: ProfitFactor, expectancy: real,
    averageWin: real, averageLoss: real, maximumDrawdown: real, sharpe: Option<real>, sortino: Option<real>,
    averageHoldingMinutes: real, dcaFrequency: real, maximumDcaDepth: nat, timeExitFrequency: real)

  function Nets(trades: seq<Trade>): seq<real> { seq(|trades|, i requires 0 <= i < |trades| => trades[i].net) }

  function HoldingMinutes(trades: seq<Trade>): seq<real> {
    seq(|trades|, i requires 0 <= i < |trades| => trades[i].holding as real / MINUTE as real)
  }

  function TimeExits(trades: seq<Trade>): seq<real> {
    seq(|trades|, i requires 0 <= i < |trades| => if trades[i].timeExit then 1.0 else 0.0)
  }

  function Averaged(trades: seq<Trade>): seq<real> {
    seq(|trades|, i requires 0 <= i < |trades| => if trades[i].dcaDepth > 0 then 1.0 else 0.0)
  }

  function DeepestDca(trades: seq<Trade>): nat {
    if trades == [] then 0 else MaxInt(trades[0].dcaDepth, DeepestDca(trades[1..]))
  }

  function Above(values: seq<real>): seq<real> {
    if values == [] then [] else (if values[0] > 0.0 then [values[0]] else []) + Above(values[1..])
  }

  function Below(values: seq<real>): seq<real> {
    if values == [] then [] else (if values[0] < 0.0 then [values[0]] else []) + Below(values[1..])
  }

  function MeanOrZero(values: seq<real>): real { if values == [] then 0.0 else Sum(values) / |values| as real }

  function ShareOf(part: nat, total: nat): real { if total == 0 then 0.0 else part as real / total as real }

  function FactorOf(profit: real, loss: real): ProfitFactor {
    if loss != 0.0 then Ratio(profit / loss) else if profit == 0.0 then Undefined else Infinite
  }

  function SquaredFrom(values: seq<real>, m: real): real {
    if values == [] then 0.0 else (values[0] - m) * (values[0] - m) + SquaredFrom(values[1..], m)
  }

  function Variance(values: seq<real>): real
    requires values != []
  {
    SquaredFrom(values, MeanOrZero(values)) / |values| as real
  }

  /** `pstdev`, for more than one value. */
  function Deviation(values: seq<real>, root: real -> real): real {
    if |values| > 1 then root(Variance(values)) else 0.0
  }

  /** The mean per unit of deviation, scaled to the number of values. */
  function MeanPer(values: seq<real>, deviation: real, root: real -> real): Option<real> {
    if deviation == 0.0 then None else Some(MeanOrZero(values) / deviation * root(|values| as real))
  }

  /** The square root that the ratios use is a parameter. */
  function MetricsOf(trades: seq<Trade>, root: real -> real): Metrics {
    var values := Nets(trades);
    var wins, losses := Above(values), Below(values);
    Metrics(
      |values|, ShareOf(|wins|, |values|), ShareOf(|losses|, |values|), FactorOf(Sum(wins), Abs(Sum(losses))),
      MeanOrZero(values), MeanOrZero(wins), MeanOrZero(losses), Drawdown.Drop(values, |values|),
      MeanPer(values, Deviation(values, root), root), MeanPer(values, Deviation(losses, root), root),
      MeanOrZero(HoldingMinutes(trades)), MeanOrZero(Averaged(trades)), DeepestDca(trades),
      MeanOrZero(TimeExits(trades)))
  }

  /** `performance_metrics`. */
  method PerformanceMetrics(trades: seq<Trade>, root: real -> real) returns (metrics: Metrics)
    ensures metrics == MetricsOf(trades, root)
  {
    var values := Nets(trades);
    var wins, losses := Above(values), Below(values);
    var drawdown := Drawdown.RunningDrawdown(values);
    return Metrics(
      |values|, ShareOf(|wins|, |values|), ShareOf(|losses|, |values|), FactorOf(Sum(wins), Abs(Sum(losses))),
      MeanOrZero(values), MeanOrZero(wins), MeanOrZero(losses), drawdown,
      MeanPer(values, Deviation(values, root), root), MeanPer(values, Deviation(losses, root), root),
      MeanOrZero(HoldingMinutes(trades)), MeanOrZero(Averaged(trades)), DeepestDca(trades),
      MeanOrZero(TimeExits(trades)));
  }

  lemma {:induction false} WinsAndLosses(values: seq<real>)
    ensures Sum(values) == Sum(Above(values)) + Sum(Below(values))
    ensures Sum(Above(values)) >= 0.0 && (Sum(Above(values)) == 0.0 <==> Above(values) == [])
    ensures Sum(Below(values)) <= 0.0 && (Sum(Below(values)) == 0.0 <==> Below(values) == [])
    ensures |Above(values)| + |Below(values)| <= |values|
  {
    if values != [] {
      var x, rest := values[0], values[1..];
      WinsAndLosses(rest);
      assert Above(values) == if x > 0.0 then [x] + Above(rest) else Above(rest);
      assert Below(values) == if x < 0.0 then [x] + Below(rest) else Below(rest);
      SumConcat([x], Above(rest));
      SumConcat([x], Below(rest));
      SumOne(x);
    }
  }

  lemma SharedMean(part: seq<real>, total: nat) returns (share: real, mean: real)
    requires total > 0
    ensures share == ShareOf(|part|, total) && mean == MeanOrZero(part)
    ensures share * mean == Sum(part) / total as real
  {
    share, mean := ShareOf(|part|, total), MeanOrZero(part);
    if part != [] { Telescopes(|part| as real, total as real, Sum(part)); }
  }

  lemma Telescopes(k: real, n: real, s: real)
    requires k > 0.0 && n > 0.0
    ensures k / n * (s / k) == s / n
  {
    var mean := s / k;
    assert s == mean * k;
    assert k / n * mean == k * mean / n;
  }

  lemma RatesFit(wins: nat, losses: nat, total: nat)
    requires wins + losses <= total && total > 0
    ensures ShareOf(wins, total) + ShareOf(losses, total) <= 1.0
  {
    FractionsAdd(wins as real, losses as real, total as real);
    DivisionCompare((wins + losses) as real, total as real, 1.0);
  }

  /** A mean is what its two parts contribute by their rates, and the rates leave room for the rest. */
  predicate Splits(mean: real, winRate: real, averageWin: real, lossRate: real, averageLoss: real) {
    mean == winRate * averageWin + lossRate * averageLoss && winRate + lossRate <= 1.0
  }

  lemma PartsSplit(
    mean: real, winRate: real, averageWin: real, lossRate: real, averageLoss: real, won: real, lost: real)
    requires winRate * averageWin == won && lossRate * averageLoss == lost
    requires mean == won + lost && winRate + lossRate <= 1.0
    ensures Splits(mean, winRate, averageWin, lossRate, averageLoss)
  {
  }

  lemma MeanSplits(values: seq<real>)
    ensures Splits(MeanOrZero(values), ShareOf(|Above(values)|, |values|), MeanOrZero(Above(values)),
                   ShareOf(|Below(values)|, |values|), MeanOrZero(Below(values)))
  {
    if values != [] {
      WinsAndLosses(values);
      var n := |values| as real;
      var winRate, averageWin := SharedMean(Above(values), |values|);
      var lossRate, averageLoss := SharedMean(Below(values), |values|);
      FractionsAdd(Sum(Above(values)), Sum(Below(values)), n);
      RatesFit(|Above(values)|, |Below(values)|, |values|);
      PartsSplit(MeanOrZero(values), winRate, averageWin, lossRate, averageLoss, Sum(Above(values)) / n,
                 Sum(Below(values)) / n);
    }
  }

  /** The expectancy is what wins and losses contribute by their rates; the rates leave room for break-even trades. */
  lemma ExpectancySplits(trades: seq<Trade>, root: real -> real)
    ensures var m := MetricsOf(trades, root); Splits(m.expectancy, m.winRate, m.averageWin, m.lossRate, m.averageLoss)
  {
    MeanSplits(Nets(trades));
  }

  lemma MeanIsPositiveIff(values: seq<real>)
    ensures MeanOrZero(values) > 0.0 <==> Sum(Above(values)) > Abs(Sum(Below(values)))
  {
    WinsAndLosses(values);
    if values != [] { DivisionCompare(Sum(values), |values| as real, 0.0); }
  }

  lemma FactorAboveOneIff(profit: real, loss: real)
    requires profit >= 0.0 && loss >= 0.0
    ensures var factor := FactorOf(profit, loss);
      profit > loss <==> factor == Infinite || (factor.Ratio? && factor.value > 1.0)
  {
    if loss != 0.0 { DivisionCompare(profit, loss, 1.0); }
  }

  /** Expecting a profit is the same as a profit factor above one, or wins without a loss. */
  lemma ProfitableIff(trades: seq<Trade>, root: real -> real)
    ensures var m := MetricsOf(trades, root);
      m.expectancy > 0.0 <==> m.profitFactor == Infinite || (m.profitFactor.Ratio? && m.profitFactor.value > 1.0)
  {
    var values := Nets(trades);
    WinsAndLosses(values);
    MeanIsPositiveIff(values);
    FactorAboveOneIff(Sum(Above(values)), Abs(Sum(Below(values))));
  }

  // ------------------------------------------- the ratios to a deviation

  predicate IsRoot(root: real -> real, x: real) { root(x) >= 0.0 && root(x) * root(x) == x }

  ghost predicate AllEqual(values: seq<real>) {
    forall i, j | 0 <= i < |values| && 0 <= j < |values| :: values[i] == values[j]
  }

  lemma SquareZeroIff(x: real)
    ensures x * x >= 0.0 && (x * x == 0.0 <==> x == 0.0)
  {
    var size := Abs(x);
    assert size * size == x * x;
    if size > 0.0 {
      FactorSign(size, -size);
      assert size * -size == -(size * size);
    }
  }

  lemma {:induction false} SquaredFromZeroIff(values: seq<real>, m: real)
    ensures SquaredFrom(values, m) >= 0.0
    ensures SquaredFrom(values, m) == 0.0 <==> forall i | 0 <= i < |values| :: values[i] == m
  {
    if values != [] {
      SquareZeroIff(values[0] - m);
      SquaredFromZeroIff(values[1..], m);
      assert forall i | 0 < i < |values| :: values[i] == values[1..][i - 1];
    }
  }

  lemma {:induction false} SumOfEqual(values: seq<real>, n: real, v: real)
    requires n == |values| as real && forall i | 0 <= i < |values| :: values[i] == v
    ensures Sum(values) == n * v
  {
    if values != [] {
      SumOfEqual(values[1..], n - 1.0, v);
      assert n * v == v + (n - 1.0) * v;
    }
  }

  lemma VarianceZeroIff(values: seq<real>)
    requires values != []
    ensures Variance(values) >= 0.0 && (Variance(values) == 0.0 <==> AllEqual(values))
  {
    var m, n := MeanOrZero(values), |values| as real;
    SquaredFromZeroIff(values, m);
    DivisionCompare(SquaredFrom(values, m), n, 0.0);
    if AllEqual(values) {
      SumOfEqual(values, n, values[0]);
      DivisionCompare(Sum(values), n, values[0]);
      assert m == values[0];
    }
  }

  /** Values have no deviation exactly when they are all the same. */
  lemma DeviationZeroIff(values: seq<real>, root: real -> real)
    requires |values| > 1 ==> IsRoot(root, Variance(values))
    ensures Deviation(values, root) >= 0.0 && (Deviation(values, root) == 0.0 <==> AllEqual(values))
  {
    if |values| > 1 {
      VarianceZeroIff(values);
      SquareZeroIff(root(Variance(values)));
    }
  }

  lemma MeanPerSign(values: seq<real>, deviation: real, root: real -> real)
    requires deviation > 0.0 && values != [] && IsRoot(root, |values| as real)
    ensures MeanPer(values, deviation, root).value > 0.0 <==> MeanOrZero(values) > 0.0
  {
    var scale, mean := root(|values| as real), MeanOrZero(values);
    SquareZeroIff(scale);
    DivisionCompare(mean, deviation, 0.0);
    FactorSign(scale, mean / deviation);
    FactorSign(scale, -(mean / deviation));
    assert scale * -(mean / deviation) == -(mean / deviation * scale);
  }

  /** The roots that the two ratios take are square roots. */
  ghost predicate TakesRoots(trades: seq<Trade>, root: real -> real) {
    var values := Nets(trades);
    && IsRoot(root, |values| as real)
    && (|values| > 1 ==> IsRoot(root, Variance(values)))
    && (|Below(values)| > 1 ==> IsRoot(root, Variance(Below(values))))
  }

  /**
   * The Sharpe ratio is missing exactly when all trades net the same, the Sortino ratio exactly when all
   * losing trades do, and where there is one it is positive exactly when the expectancy is.
   */
  lemma RatiosIff(trades: seq<Trade>, root: real -> real)
    requires TakesRoots(trades, root)
    ensures var m := MetricsOf(trades, root);
      && (m.sharpe.None? <==> AllEqual(Nets(trades)))
      && (m.sortino.None? <==> AllEqual(Below(Nets(trades))))
      && (m.sharpe.Some? ==> (m.sharpe.value > 0.0 <==> m.expectancy > 0.0))
      && (m.sortino.Some? ==> (m.sortino.value > 0.0 <==> m.expectancy > 0.0))
  {
    var values := Nets(trades);
    DeviationZeroIff(values, root);
    DeviationZeroIff(Below(values), root);
    WinsAndLosses(values);
    if Deviation(values, root) > 0.0 { MeanPerSign(values, Deviation(values, root), root); }
    if Deviation(Below(values), root) > 0.0 { MeanPerSign(values, Deviation(Below(values), root), root); }
  }

  // --------------------------------------------------- one position at a time

  /** The first opening event from i on, or the end. */
  function NextOpen(ordered: seq<StrategyEvent>, i: nat): (a: nat)
    requires i <= |ordered|
    ensures i <= a <= |ordered| && (a < |ordered| ==> Opens(ordered[a]))
    ensures forall k | i <= k < a :: !Opens(ordered[k])
    decreases |ordered| - i
  {
    if i == |ordered| || Opens(ordered[i]) then i else NextOpen(ordered, i + 1)
  }

  /** The first closing event from i on, or the end. */
  function NextClose(ordered: seq<StrategyEvent>, i: nat): (b: nat)
    requires i <= |ordered|
    ensures i <= b <= |ordered| && (b < |ordered| ==> Closes(ordered[b]))
    ensures forall k | i <= k < b :: !Closes(ordered[k])
    decreases |ordered| - i
  {
    if i == |ordered| || Closes(ordered[i]) then i else NextClose(ordered, i + 1)
  }

  /** The trades by search: the next opening event, the first closing event after it, and so on. */
  function Pairs(costs: Costs, ordered: seq<StrategyEvent>, i: nat, open: Option<StrategyEvent>): seq<Trade>
    requires i <= |ordered|
    decreases |ordered| - i
  {
    var j := if open.None? then NextOpen(ordered, i) else NextClose(ordered, i);
    if j == |ordered| then []
    else if open.None? then Pairs(costs, ordered, j + 1, Some(ordered[j]))
    else [TradeOf(costs, open.value, ordered[j])] + Pairs(costs, ordered, j + 1, None)
  }

  /** The pass over the events finds exactly the trades of the search. */
  lemma {:induction false} PlayIsPairs(costs: Costs, ordered: seq<StrategyEvent>, i: nat, open: Option<StrategyEvent>)
    requires i <= |ordered|
    ensures Play(costs, ordered, i, open) == Pairs(costs, ordered, i, open)
    decreases |ordered| - i
  {
    if i < |ordered| {
      if open.None? && Opens(ordered[i]) {
        PlayIsPairs(costs, ordered, i + 1, Some(ordered[i]));
      } else if open.Some? && Closes(ordered[i]) {
        PlayIsPairs(costs, ordered, i + 1, None);
      } else {
        PlayIsPairs(costs, ordered, i + 1, open);
        PairsSkip(costs, ordered, i, open);
      }
    }
  }

  lemma PairsSkip(costs: Costs, ordered: seq<StrategyEvent>, i: nat, open: Option<StrategyEvent>)
    requires i < |ordered| && if open.None? then !Opens(ordered[i]) else !Closes(ordered[i])
    ensures Pairs(costs, ordered, i, open) == Pairs(costs, ordered, i + 1, open)
  {
    assert NextOpen(ordered, i) == if Opens(ordered[i]) then i else NextOpen(ordered, i + 1);
    assert NextClose(ordered, i) == if Closes(ordered[i]) then i else NextClose(ordered, i + 1);
  }

  /** Trades follow each other in time and never overlap. */
  ghost predicate InSequence(trades: seq<Trade>, start: int) {
    && (forall k | 0 <= k < |trades| :: start <= trades[k].entryTime <= trades[k].exitTime)
    && (forall k | 0 < k < |trades| :: trades[k - 1].exitTime <= trades[k].entryTime)
  }

  lemma InSequenceBefore(trade: Trade, rest: seq<Trade>, start: int)
    requires start <= trade.entryTime <= trade.exitTime && InSequence(rest, trade.exitTime)
    ensures InSequence([trade] + rest, start)
  {
    var trades := [trade] + rest;
    forall k | 0 < k < |trades|
      ensures trades[k - 1].exitTime <= trades[k].entryTime
      ensures start <= trades[k].entryTime <= trades[k].exitTime
    {
      assert trades[k] == rest[k - 1];
      if k > 1 { assert trades[k - 1] == rest[k - 2]; }
    }
  }

  lemma LaterThan(ordered: seq<StrategyEvent>, a: nat)
    requires SortedBy(ordered, TimeOf) && a < |ordered|
    ensures forall k | a <= k < |ordered| :: ordered[a].timestamp <= ordered[k].timestamp
  {
    forall k | a <= k < |ordered| ensures ordered[a].timestamp <= ordered[k].timestamp {
      assert TimeOf(ordered[a]) <= TimeOf(ordered[k]);
    }
  }

  lemma {:induction false} TradesInSequence(costs: Costs, ordered: seq<StrategyEvent>, i: nat, start: int)
    requires i <= |ordered| && SortedBy(ordered, TimeOf)
    requires forall k | i <= k < |ordered| :: start <= ordered[k].timestamp
    ensures InSequence(Pairs(costs, ordered, i, None), start)
    decreases |ordered| - i
  {
    var a := NextOpen(ordered, i);
    if a < |ordered| {
      var b := NextClose(ordered, a + 1);
      if b < |ordered| {
        LaterThan(ordered, a);
        LaterThan(ordered, b);
        TradesInSequence(costs, ordered, b + 1, ordered[b].timestamp);
        InSequenceBefore(TradeOf(costs, ordered[a], ordered[b]), Pairs(costs, ordered, b + 1, None), start);
      }
    }
  }

  // ------------------------------------------------------------ no look-ahead

  /** The events known by a moment. */
  function UpTo(events: seq<StrategyEvent>, moment: int): seq<StrategyEvent> {
    if events == [] then []
    else (if events[0].timestamp <= moment then [events[0]] else []) + UpTo(events[1..], moment)
  }

  lemma {:induction false} UpToInsert(x: StrategyEvent, s: seq<StrategyEvent>, moment: int)
    requires SortedBy(s, TimeOf)
    ensures UpTo(Insert(x, s, TimeOf), moment)
         == if x.timestamp <= moment then Insert(x, UpTo(s, moment), TimeOf) else UpTo(s, moment)
  {
    if s == [] || TimeOf(x) <= TimeOf(s[0]) {
      assert ([x] + s)[1..] == s;
      if s != [] && s[0].timestamp > moment {
        LaterThan(s, 0);
        NoneUpTo(s, moment);
      }
    } else {
      var rest := Insert(x, s[1..], TimeOf);
      assert ([s[0]] + rest)[1..] == rest;
      UpToInsert(x, s[1..], moment);
      var known := UpTo(s[1..], moment);
      assert ([s[0]] + known)[1..] == known;
    }
  }

  lemma SortCons(e: StrategyEvent, rest: seq<StrategyEvent>)
    ensures SortBy([e] + rest, TimeOf) == Insert(e, SortBy(rest, TimeOf), TimeOf)
  {
    assert ([e] + rest)[1..] == rest;
  }

  lemma {:induction false} UpToSort(events: seq<StrategyEvent>, moment: int)
    ensures SortBy(UpTo(events, moment), TimeOf) == UpTo(SortBy(events, TimeOf), moment)
  {
    if events != [] {
      UpToSort(events[1..], moment);
      SortBySorts(events[1..], TimeOf);
      UpToInsert(events[0], SortBy(events[1..], TimeOf), moment);
      var known := UpTo(events[1..], moment);
      SortCons(events[0], known);
      assert UpTo(events, moment) == if events[0].timestamp <= moment then [events[0]] + known else known;
    }
  }

  /** Of sorted events, those known by a moment come first. */
  lemma {:induction false} UpToIsPrefix(ordered: seq<StrategyEvent>, moment: int) returns (k: nat)
    requires SortedBy(ordered, TimeOf)
    ensures k <= |ordered| && UpTo(ordered, moment) == ordered[..k]
    ensures forall j | 0 <= j < k :: ordered[j].timestamp <= moment
    ensures forall j | k <= j < |ordered| :: ordered[j].timestamp > moment
  {
    if ordered == [] {
      k := 0;
    } else if ordered[0].timestamp <= moment {
      var rest := UpToIsPrefix(ordered[1..], moment);
      k := rest + 1;
      assert ordered[..k] == [ordered[0]] + ordered[1..][..rest];
    } else {
      k := 0;
      forall j | 0 <= j < |ordered| ensures ordered[j].timestamp > moment {
        assert TimeOf(ordered[0]) <= TimeOf(ordered[j]);
      }
      NoneUpTo(ordered, moment);
    }
  }

  lemma {:induction false} NoneUpTo(events: seq<StrategyEvent>, moment: int)
    requires forall j | 0 <= j < |events| :: events[j].timestamp > moment
    ensures UpTo(events, moment) == []
  {
    if events != [] { NoneUpTo(events[1..], moment); }
  }

  function ClosedBy(trades: seq<Trade>, moment: int): seq<Trade> {
    if trades == [] then []
    else (if trades[0].exitTime <= moment then [trades[0]] else []) + ClosedBy(trades[1..], moment)
  }

  lemma {:induction false} PlayPrefix(
    costs: Costs, ordered: seq<StrategyEvent>, k: nat, i: nat, open: Option<StrategyEvent>, moment: int)
    requires i <= k <= |ordered|
    requires forall j | 0 <= j < k :: ordered[j].timestamp <= moment
    requires forall j | k <= j < |ordered| :: ordered[j].timestamp > moment
    ensures Play(costs, ordered[..k], i, open) == ClosedBy(Play(costs, ordered, i, open), moment)
    decreases k - i
  {
    if i == k {
      LateTrades(costs, ordered, i, open, moment);
    } else if open.None? && Opens(ordered[i]) {
      PlayPrefix(costs, ordered, k, i + 1, Some(ordered[i]), moment);
    } else if open.Some? && Closes(ordered[i]) {
      PlayPrefix(costs, ordered, k, i + 1, None, moment);
      var rest := Play(costs, ordered, i + 1, None);
      assert ([TradeOf(costs, open.value, ordered[i])] + rest)[1..] == rest;
    } else {
      PlayPrefix(costs, ordered, k, i + 1, open, moment);
    }
  }

  lemma {:induction false} LateTrades(
    costs: Costs, ordered: seq<StrategyEvent>, i: nat, open: Option<StrategyEvent>, moment: int)
    requires i <= |ordered| && forall j | i <= j < |ordered| :: ordered[j].timestamp > moment
    ensures ClosedBy(Play(costs, ordered, i, open), moment) == []
    decreases |ordered| - i
  {
    if i < |ordered| {
      if open.None? && Opens(ordered[i]) {
        LateTrades(costs, ordered, i + 1, Some(ordered[i]), moment);
      } else if open.Some? && Closes(ordered[i]) {
        LateTrades(costs, ordered, i + 1, None, moment);
        var rest := Play(costs, ordered, i + 1, None);
        assert ([TradeOf(costs, open.value, ordered[i])] + rest)[1..] == rest;
      } else {
        LateTrades(costs, ordered, i + 1, open, moment);
      }
    }
  }

  /** Simulating with the events known by a moment gives exactly the trades closed by that moment. */
  lemma SimulationIsCausal(costs: Costs, events: seq<StrategyEvent>, moment: int)
    ensures Play(costs, SortBy(UpTo(events, moment), TimeOf), 0, None)
         == ClosedBy(Play(costs, SortBy(events, TimeOf), 0, None), moment)
  {
    var ordered := SortBy(events, TimeOf);
    UpToSort(events, moment);
    SortByOrders(events, TimeOf);
    var k := UpToIsPrefix(ordered, moment);
    PlayPrefix(costs, ordered, k, 0, None, moment);
  }

  /** Of any events, the trades of a run follow each other and are the pairs of the search. */
  lemma RunIsSequential(costs: Costs, events: seq<StrategyEvent>, start: int)
    requires forall e | e in events :: start <= e.timestamp
    ensures var trades := Play(costs, SortBy(events, TimeOf), 0, None);
      trades == Pairs(costs, SortBy(events, TimeOf), 0, None) && InSequence(trades, start)
  {
    var ordered := SortBy(events, TimeOf);
    SortByOrders(events, TimeOf);
    SameMembers(events, ordered);
    forall k | 0 <= k < |ordered| ensures start <= ordered[k].timestamp {
      assert ordered[k] in ordered;
    }
    PlayIsPairs(costs, ordered, 0, None);
    TradesInSequence(costs, ordered, 0, start);
  }
}
