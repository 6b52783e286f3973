/** What the figures behind the risk gate mean over a run: peak and drawdown, the day's loss, the price of a fill. */
module PaperGuards {
  import opened Prelude
  import opened Timeframes
  import opened Directions
  import opened PaperModels
  import opened PaperBook
  import opened PaperLaws

  // --------------------------------------------------------------- peak and drawdown

  /** The peak is above the equity, and the reported drawdown covers the present distance from it. */
  predicate Peaked(a: Account) {
    && 0.0 < a.peakEquity && a.equity <= a.peakEquity
    && (a.peakEquity - a.equity) / a.peakEquity <= a.maxDrawdown
  }

  predicate NeverHeals(before: Account, after: Account) {
    before.peakEquity <= after.peakEquity && before.maxDrawdown <= after.maxDrawdown
  }

  lemma MarkPeaked(a: Account, unrealized: real)
    requires 0.0 < a.peakEquity
    ensures Peaked(MarkAccount(a, unrealized)) && NeverHeals(a, MarkAccount(a, unrealized))
  {
  }

  lemma BookMarkPeaked(book: Book, id: nat, price: real, timestamp: int)
    requires Peaked(book.account)
    ensures Peaked(Mark(book, id, price, timestamp).0.account)
    ensures NeverHeals(book.account, Mark(book, id, price, timestamp).0.account)
  {
    if id in book.positions {
      MarkPeaked(book.account,
                 Total(book.positions[id := MarkPosition(book.positions[id], price)], book.nextId, Unrealized));
    }
  }

  lemma ExitPeaked(book: Book, id: nat, view: ExitView, maxHolding: int, price: real, timestamp: int)
    requires Peaked(book.account)
    ensures Peaked(EvaluateExit(book, id, view, maxHolding, price, timestamp).0.account)
    ensures NeverHeals(book.account, EvaluateExit(book, id, view, maxHolding, price, timestamp).0.account)
  {
    if id in book.positions {
      var (_, code) := DecisionOn(book, id, view, maxHolding, timestamp);
      ClosePeaked(book, id, price, code);
    }
  }

  lemma ApplyPeaked(config: Config, book: Book, op: Operation)
    requires Peaked(book.account)
    ensures Peaked(Apply(config, book, op).0.account) && NeverHeals(book.account, Apply(config, book, op).0.account)
  {
    match op
    case DoMark(id, price, timestamp) => BookMarkPeaked(book, id, price, timestamp);
    case DoClose(id, price, reason) => ClosePeaked(book, id, price, reason);
    case DoEvaluateExit(id, view, maxHolding, price, timestamp) =>
      ExitPeaked(book, id, view, maxHolding, price, timestamp);
    case _ =>
  }

  lemma ClosePeaked(book: Book, id: nat, price: real, reason: string)
    requires Peaked(book.account)
    ensures Peaked(Close(book, id, price, reason).0.account)
    ensures NeverHeals(book.account, Close(book, id, price, reason).0.account)
  {
    if Close(book, id, price, reason).1.ClosedOut? {
      var r := ResultOf(book, id, price);
      var net := r.grossPnl - r.commission - r.slippage;
      var paid := book.account.(
        realizedPnl := book.account.realizedPnl + net, commission := book.account.commission + r.commission,
        slippage := book.account.slippage + r.slippage, balance := book.account.balance + net);
      MarkPeaked(paid, 0.0);
    }
  }

  /** Over every run the reported drawdown and the peak never fall, and they cover the present equity. */
  lemma {:induction false} RunPeaked(config: Config, book: Book, ops: seq<Operation>)
    requires Peaked(book.account)
    ensures Peaked(Run(config, book, ops).account) && NeverHeals(book.account, Run(config, book, ops).account)
    decreases |ops|
  {
    if ops != [] {
      ApplyPeaked(config, book, ops[0]);
      RunPeaked(config, Apply(config, book, ops[0]).0, ops[1..]);
    }
  }

  /** Once the drawdown has reached its limit, no run opens or adds to a position again. */
  lemma {:induction false} DrawdownLocksTheBook(config: Config, book: Book, ops: seq<Operation>, next: Operation)
    requires Peaked(book.account) && book.account.maxDrawdown >= config.limits.maxDrawdown
    requires next.DoEnter? || next.DoDca?
    ensures !Apply(config, Run(config, book, ops), next).1.Accepted?
    decreases |ops|
  {
    if ops == [] {
      LockedNow(config, book, next);
    } else {
      ApplyPeaked(config, book, ops[0]);
      DrawdownLocksTheBook(config, Apply(config, book, ops[0]).0, ops[1..], next);
    }
  }

  lemma LockedNow(config: Config, book: Book, next: Operation)
    requires book.account.maxDrawdown >= config.limits.maxDrawdown && (next.DoEnter? || next.DoDca?)
    ensures !Apply(config, book, next).1.Accepted?
  {
    match next
    case DoEnter(request, quote, conditions) =>
      DrawdownRefuses(config.limits, book.killSwitch, true, false, StandingOf(book, 0), request.quantity,
                      GateSpread(quote), conditions);
    case DoDca(id, request, quote, conditions) =>
      if id in book.positions {
        DrawdownRefuses(config.limits, book.killSwitch, false, true, StandingOf(book, book.positions[id].dcaEntries),
                        request.quantity, GateSpread(quote), conditions);
      }
  }

  lemma DrawdownRefuses(
    limits: Limits, killSwitch: bool, newEntry: bool, increasesExposure: bool,
    standing: Standing, quantity: real, spread: real, conditions: Conditions)
    requires standing.drawdown >= limits.maxDrawdown
    ensures Refusals(limits, killSwitch, newEntry, increasesExposure, standing, quantity, spread, conditions) != []
  {
  }

  // -------------------------------------------------------------------- the day's loss

  /** The daily state after the readings of an equity curve. */
  function Readings(daily: Daily, curve: seq<EquityPoint>): Daily {
    if curve == [] then daily
    else
      var last := curve[|curve| - 1];
      UpdateDaily(Readings(daily, curve[..|curve| - 1]), last.timestamp, last.equity)
  }

  lemma ReadingsSnoc(daily: Daily, curve: seq<EquityPoint>, point: EquityPoint)
    ensures Readings(daily, curve + [point]) == UpdateDaily(Readings(daily, curve), point.timestamp, point.equity)
  {
    assert (curve + [point])[..|curve|] == curve;
  }

  /** The daily figures of the book are those of its equity curve. */
  predicate FollowsCurve(book: Book, start: Daily) { book.daily == Readings(start, book.equityCurve) }

  lemma MarkFollows(book: Book, id: nat, price: real, timestamp: int, start: Daily)
    requires FollowsCurve(book, start)
    ensures FollowsCurve(Mark(book, id, price, timestamp).0, start)
  {
    var after := Mark(book, id, price, timestamp).0;
    if id in book.positions { ReadingsSnoc(start, book.equityCurve, after.equityCurve[|book.equityCurve|]); }
  }

  lemma OthersKeepCurve(config: Config, book: Book, op: Operation)
    requires !op.DoMark?
    ensures Apply(config, book, op).0.equityCurve == book.equityCurve && Apply(config, book, op).0.daily == book.daily
  {
    match op
    case SetState(_) =>
    case SetKillSwitch(_) =>
    case DoEnter(request, quote, conditions) => EnterKeepsCurve(config, book, request, quote, conditions);
    case DoDca(id, request, quote, conditions) => DcaKeepsCurve(config, book, id, request, quote, conditions);
    case DoClose(id, price, reason) => CloseKeepsCurve(book, id, price, reason);
    case DoEvaluateExit(id, view, maxHolding, price, timestamp) =>
      if id in book.positions {
        var (_, code) := DecisionOn(book, id, view, maxHolding, timestamp);
        CloseKeepsCurve(book, id, price, code);
      }
  }

  predicate SameCurve(after: Book, book: Book) { after.equityCurve == book.equityCurve && after.daily == book.daily }

  lemma EnterKeepsCurve(config: Config, book: Book, request: Request, quote: Option<Quote>, conditions: Conditions)
    ensures SameCurve(Enter(config, book, request, quote, conditions).0, book)
  {
  }

  lemma DcaKeepsCurve(
    config: Config, book: Book, id: nat, request: Request, quote: Option<Quote>, conditions: Conditions)
    ensures SameCurve(AddDca(config, book, id, request, quote, conditions).0, book)
  {
  }

  lemma CloseKeepsCurve(book: Book, id: nat, price: real, reason: string)
    ensures SameCurve(Close(book, id, price, reason).0, book)
  {
  }

  lemma {:induction false} RunFollows(config: Config, book: Book, ops: seq<Operation>, start: Daily)
    requires FollowsCurve(book, start)
    ensures FollowsCurve(Run(config, book, ops), start)
    decreases |ops|
  {
    if ops != [] {
      if ops[0].DoMark? {
        MarkFollows(book, ops[0].id, ops[0].price, ops[0].timestamp, start);
      } else {
        OthersKeepCurve(config, book, ops[0]);
      }
      RunFollows(config, Apply(config, book, ops[0]).0, ops[1..], start);
    }
  }

  function DayOf(point: EquityPoint): int { point.timestamp / DAY }

  /** The last run of readings of one day begins at k. */
  predicate DayBegins(curve: seq<EquityPoint>, k: nat) {
    && k < |curve|
    && (forall i | k <= i < |curve| :: DayOf(curve[i]) == DayOf(curve[k]))
    && (k > 0 ==> DayOf(curve[k - 1]) != DayOf(curve[k]))
  }

  lemma LastDay(daily: Daily, curve: seq<EquityPoint>)
    requires curve != []
    ensures Readings(daily, curve).day == Some(DayOf(curve[|curve| - 1]))
  {
  }

  lemma {:induction false} StartsWithTheDay(daily: Daily, curve: seq<EquityPoint>, k: nat)
    requires DayBegins(curve, k) && daily.day.None?
    ensures Readings(daily, curve).dailyStartEquity == curve[k].equity
  {
    var before := curve[..|curve| - 1];
    if k < |curve| - 1 {
      StartsWithTheDay(daily, before, k);
      LastDay(daily, before);
    } else if k > 0 {
      LastDay(daily, before);
    }
  }

  /** The loss since the first reading as a share of it; of a negative start, a gain counts as the loss. */
  function LossShare(first: real, last: real): real {
    if first == 0.0 then 0.0 else Max(0.0, (first - last) / first)
  }

  /**
   * On every book a run reaches, the day's figures are measured from the first mark of that day on
   * the equity curve, and trading is paused exactly when the day's loss reaches the limit.
   */
  lemma DailyLossFromFirstMark(config: Config, initial: real, dailyLossLimit: real, ops: seq<Operation>, k: nat)
    requires DayBegins(Run(config, NewBook(initial, dailyLossLimit), ops).equityCurve, k)
    ensures var book := Run(config, NewBook(initial, dailyLossLimit), ops);
      var first, last := book.equityCurve[k].equity, book.equityCurve[|book.equityCurve| - 1].equity;
      && book.daily.dailyPnl == last - first && book.daily.dailyDrawdown == LossShare(first, last)
      && (book.daily.paused <==> LossShare(first, last) >= dailyLossLimit)
  {
    var empty := NewBook(initial, dailyLossLimit);
    RunFollows(config, empty, ops, empty.daily);
    LossOfDay(empty.daily, Run(config, empty, ops).equityCurve, k);
  }

  lemma LossOfDay(daily: Daily, curve: seq<EquityPoint>, k: nat)
    requires DayBegins(curve, k) && daily.day.None?
    ensures var after, first, last := Readings(daily, curve), curve[k].equity, curve[|curve| - 1].equity;
      && after.dailyPnl == last - first && after.dailyDrawdown == LossShare(first, last)
      && (after.paused <==> LossShare(first, last) >= daily.dailyLossLimit)
  {
    var before, last := Readings(daily, curve[..|curve| - 1]), curve[|curve| - 1];
    StartsWithTheDay(daily, curve, k);
    LimitStays(daily, curve);
    LossOf(before, last.timestamp, last.equity, curve[k].equity);
  }

  lemma LossOf(daily: Daily, timestamp: int, equity: real, first: real)
    requires UpdateDaily(daily, timestamp, equity).dailyStartEquity == first
    ensures var after := UpdateDaily(daily, timestamp, equity);
      && after.dailyPnl == equity - first && after.dailyDrawdown == LossShare(first, equity)
      && (after.paused <==> after.dailyDrawdown >= after.dailyLossLimit)
  {
    assert -(equity - first) == first - equity;
  }

  lemma {:induction false} LimitStays(daily: Daily, curve: seq<EquityPoint>)
    ensures Readings(daily, curve).dailyLossLimit == daily.dailyLossLimit
  {
    if curve != [] { LimitStays(daily, curve[..|curve| - 1]); }
  }

  // ---------------------------------------------------------- what is let through

  /** What the gate asks of the book, of the size and of the conditions, besides the kill switch. */
  predicate WithinLimits(
    config: Config, book: Book, dcaEntries: int, quantity: real, quote: Option<Quote>, conditions: Conditions)
  {
    && book.account.maxDrawdown < config.limits.maxDrawdown
    && Total(book.positions, book.nextId, Notional) < config.limits.maxExposure
    && quantity <= config.limits.maxPositionSize && dcaEntries < config.limits.maxDcaEntries
    && book.daily.dailyDrawdown < config.limits.maxDailyLoss && GateSpread(quote) <= config.limits.maxSpread
    && !conditions.extremeVolatility && !conditions.highImpactNews && conditions.dataValid
    && conditions.providerOnline && ValidPrediction(conditions.prediction) && conditions.strategyValid
  }

  /** An order that can be filled: nothing from the future, a size, and a price to start from. */
  predicate Fillable(request: Request, quote: Option<Quote>) {
    && (request.sourceTimestamp.Some? ==> request.sourceTimestamp.value <= request.timestamp)
    && request.quantity > 0.0 && (request.requestedPrice.Some? || Priced(quote))
  }

  /**
   * An entry is accepted exactly when the service runs, the kill switch is off, there is room for one
   * more position, everything is within limits and the order can be filled; otherwise nothing changes.
   */
  lemma EntryAcceptedIff(config: Config, book: Book, request: Request, quote: Option<Quote>, conditions: Conditions)
    ensures var (after, outcome) := Enter(config, book, request, quote, conditions);
      && (outcome.Accepted? <==>
            book.state == RUNNING && !book.killSwitch && |book.positions| < config.limits.maxConcurrentPositions
            && WithinLimits(config, book, 0, request.quantity, quote, conditions) && Fillable(request, quote))
      && (outcome.Accepted? || after == book)
  {
    GateAllowsIff(config.limits, book.killSwitch, true, false, StandingOf(book, 0),
                  request.quantity, GateSpread(quote), conditions);
    FilledIff(config.execution, request, quote, 0.0);
  }

  /** The same for averaging down, which asks neither for a running service nor for room. */
  lemma DcaAcceptedIff(
    config: Config, book: Book, id: nat, request: Request, quote: Option<Quote>, conditions: Conditions)
    requires Sound(config, book)
    ensures var (after, outcome) := AddDca(config, book, id, request, quote, conditions);
      && (outcome.Accepted? <==>
            id in book.positions && !book.killSwitch
            && WithinLimits(config, book, book.positions[id].dcaEntries, request.quantity, quote, conditions)
            && Fillable(request, quote))
      && (outcome.Accepted? || after == book)
  {
    if id in book.positions {
      GateAllowsIff(config.limits, book.killSwitch, false, true, StandingOf(book, book.positions[id].dcaEntries),
                    request.quantity, GateSpread(quote), conditions);
      FilledIff(config.execution, request, quote, 0.0);
      assert book.positions[id := book.positions[id].(state := OPEN)] == book.positions;
    }
  }

  // ------------------------------------------------------------------ the price of a fill

  predicate SaneCosts(config: ExecutionConfig) {
    config.fixedSlippage >= 0.0 && config.percentageSlippage >= 0.0 && config.volatilitySlippageMultiplier >= 0.0
    && config.commissionPerTrade >= 0.0 && config.commissionPercentage >= 0.0
  }

  function Toward(request: Request): real {
    Sign(request.direction)
    * if request.orderType == CLOSE_ORDER || request.orderType == REDUCE_ORDER then -1.0 else 1.0
  }

  /**
   * The reported slippage is the distance of the fill from its reference, against the side of an
   * entry and in favour of an exit, so an entry fills no better than its reference exactly when the
   * slippage is not negative; costs that are not negative make it so.
   */
  lemma FillsAreAdverse(config: ExecutionConfig, request: Request, quote: Option<Quote>, volatility: real)
    requires Execute(config, request, quote, volatility).Ok?
    ensures Reference(config, request, quote).Some?
    ensures var o, reference := Execute(config, request, quote, volatility).value,
      Reference(config, request, quote).value;
      && o.executedPrice - reference == Toward(request) * o.slippage
      && (Toward(request) * (o.executedPrice - reference) >= 0.0 <==> o.slippage >= 0.0)
      && (SaneCosts(config) ==> o.slippage >= 0.0 && o.commission >= 0.0)
  {
    var reference := Reference(config, request, quote).value;
    var o := Execute(config, request, quote, volatility).value;
    if SaneCosts(config) {
      ProductNotNegative(Abs(reference), config.percentageSlippage);
      ProductNotNegative(Abs(volatility), config.volatilitySlippageMultiplier);
      ProductNotNegative(Abs(o.executedPrice * request.quantity), config.commissionPercentage);
    }
  }

  lemma FilledIff(config: ExecutionConfig, request: Request, quote: Option<Quote>, volatility: real)
    ensures Execute(config, request, quote, volatility).Ok? <==> Fillable(request, quote)
  {
  }

  /** Buying and selling at one quote start a spread apart, and it is the spread the order reports. */
  lemma SidesASpreadApart(config: ExecutionConfig, long: Request, short: Request, quote: Option<Quote>)
    requires long.requestedPrice.None? && short.requestedPrice.None?
    requires long.direction == LONG && short.direction == SHORT
    requires Priced(quote)
    ensures Reference(config, long, quote).Some? && Reference(config, short, quote).Some?
    ensures Reference(config, long, quote).value - Reference(config, short, quote).value == SpreadOf(config, quote)
    ensures quote.value.bid.Some? && quote.value.ask.Some? ==> GateSpread(quote) == SpreadOf(config, quote)
  {
  }

  predicate Priced(quote: Option<Quote>) {
    quote.Some? && ((quote.value.bid.Some? && quote.value.ask.Some?) || quote.value.mid.Some?)
  }

  lemma FeesSplit(config: ExecutionConfig, price: real, a: real, b: real)
    requires a >= 0.0 && b >= 0.0
    ensures CommissionOn(config, price, a) + CommissionOn(config, price, b)
         == CommissionOn(config, price, a + b) + config.commissionPerTrade
  {
    AbsProduct(price, a);
    AbsProduct(price, b);
    AbsProduct(price, a + b);
  }

  lemma AbsProduct(p: real, q: real)
    requires q >= 0.0
    ensures Abs(p * q) == Abs(p) * q
  {
    if p < 0.0 {
      ProductNotNegative(-p, q);
      assert p * q == -(-p * q);
    } else {
      ProductNotNegative(p, q);
    }
  }

  lemma FillOfSize(config: ExecutionConfig, request: Request, quote: Option<Quote>, volatility: real, q: real)
    returns (price: real, fill: Order)
    requires Execute(config, request, quote, volatility).Ok? && q > 0.0
    ensures price == Execute(config, request, quote, volatility).value.executedPrice
    ensures Execute(config, request.(quantity := q), quote, volatility) == Ok(fill)
    ensures fill.executedPrice == price && fill.commission == CommissionOn(config, price, q)
  {
    price := Execute(config, request, quote, volatility).value.executedPrice;
    fill := Execute(config, request.(quantity := q), quote, volatility).value;
  }

  /** Splitting an order fills at the same price and costs exactly one more flat fee. */
  lemma SplittingCostsOneFee(
    config: ExecutionConfig, request: Request, quote: Option<Quote>, volatility: real, a: real, b: real)
    returns (one: Order, other: Order, whole: Order)
    requires a > 0.0 && b > 0.0 && Execute(config, request, quote, volatility).Ok?
    ensures Execute(config, request.(quantity := a), quote, volatility) == Ok(one)
    ensures Execute(config, request.(quantity := b), quote, volatility) == Ok(other)
    ensures Execute(config, request.(quantity := a + b), quote, volatility) == Ok(whole)
    ensures one.executedPrice == other.executedPrice == whole.executedPrice
    ensures one.commission + other.commission == whole.commission + config.commissionPerTrade
  {
    var price;
    price, one := FillOfSize(config, request, quote, volatility, a);
    price, other := FillOfSize(config, request, quote, volatility, b);
    price, whole := FillOfSize(config, request, quote, volatility, a + b);
    FeesSplit(config, price, a, b);
  }
}
