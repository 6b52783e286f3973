/**
 * The values of the paper book and the pure rules on them (paper/models.py, state_machine.py,
 * execution.py, risk.py).
 */
module PaperModels {
  import opened Prelude
  import opened Timeframes
  import opened Directions

  datatype OrderType = MARKET | LIMIT | DCA | REDUCE_ORDER | CLOSE_ORDER

  datatype PositionState =
    | WATCHING | ENTRY_READY | OPEN | DCA_ALLOWED | DCA_BLOCKED | REDUCE | EXIT_PENDING | CLOSED | INVALIDATED

  // -------------------------------------------------------------- state machine

  function Allowed(state: PositionState): set<PositionState> {
    match state
    case WATCHING => {ENTRY_READY, INVALIDATED}
    case ENTRY_READY => {OPEN, INVALIDATED}
    case OPEN => {DCA_ALLOWED, DCA_BLOCKED, REDUCE, EXIT_PENDING, INVALIDATED}
    case DCA_ALLOWED => {OPEN, DCA_BLOCKED, EXIT_PENDING}
    case DCA_BLOCKED => {OPEN, REDUCE, EXIT_PENDING}
    case REDUCE => {OPEN, EXIT_PENDING}
    case EXIT_PENDING => {CLOSED}
    case INVALIDATED => {EXIT_PENDING, CLOSED}
    case CLOSED => {}
  }

  /** The state a position may move to, or None where the machine raises InvalidPositionTransition. */
  function Moved(current: PositionState, target: PositionState): Option<PositionState> {
    if target in Allowed(current) then Some(target) else None
  }

  // ------------------------------------------------------------------ the account

  datatype Account = Account(
    initialBalance: real, balance: real, equity: real, freeMargin: real, usedMargin: real,
    realizedPnl: real, unrealizedPnl: real, commission: real, slippage: real,
    peakEquity: real, maxDrawdown: real)

  function NewAccount(initial: real): Account {
    Account(initial, initial, initial, initial, 0.0, 0.0, 0.0, 0.0, 0.0, initial, 0.0)
  }

  function MarkAccount(a: Account, unrealized: real): Account {
    var equity := a.balance + unrealized;
    var peak := Max(a.peakEquity, equity);
    var drawdown := if peak != 0.0 then (peak - equity) / peak else 0.0;
    a.(unrealizedPnl := unrealized, equity := equity, freeMargin := equity - a.usedMargin,
       peakEquity := peak, maxDrawdown := Max(a.maxDrawdown, drawdown))
  }

  function Realize(a: Account, gross: real, commission: real, slippage: real): Account {
    var net := gross - commission - slippage;
    MarkAccount(a.(realizedPnl := a.realizedPnl + net, commission := a.commission + commission,
                   slippage := a.slippage + slippage, balance := a.balance + net), 0.0)
  }

  // ------------------------------------------------------------------- a position

  datatype RawPosition = RawPosition(
    symbol: string, direction: Direction, entryPrice: real, averageEntryPrice: real, quantity: real,
    notional: real, unrealizedPnl: real, openedAt: int, state: PositionState, dcaEntries: nat,
    stopLoss: Option<real>, takeProfit: Option<real>)

  type Position = p: RawPosition | p.quantity > 0.0
    witness RawPosition("", LONG, 1.0, 1.0, 1.0, 1.0, 0.0, 0, OPEN, 0, None, None)

  function Gross(p: Position, price: real): real { (price - p.averageEntryPrice) * p.quantity * Sign(p.direction) }

  function MarkPosition(p: Position, price: real): Position { p.(unrealizedPnl := Gross(p, price)) }

  function AddTo(p: Position, price: real, quantity: real): Position
    requires quantity > 0.0
  {
    var total := p.quantity + quantity;
    var average := (p.averageEntryPrice * p.quantity + price * quantity) / total;
    p.(averageEntryPrice := average, quantity := total, notional := average * total, dcaEntries := p.dcaEntries + 1)
  }

  // -------------------------------------------------------------------- execution

  datatype Request = Request(
    symbol: string, direction: Direction, orderType: OrderType, quantity: real, timestamp: int,
    requestedPrice: Option<real>, positionId: Option<nat>, sourceTimestamp: Option<int>,
    stopLoss: Option<real>, takeProfit: Option<real>)

  datatype Quote = Quote(bid: Option<real>, ask: Option<real>, mid: Option<real>)

  datatype Order = Order(
    positionId: Option<nat>, symbol: string, direction: Direction, orderType: OrderType,
    executedPrice: real, quantity: real, slippage: real, commission: real, timestamp: int, spread: real)

  datatype Reason =
    | PaperTradingNotRunning | FutureDataRejected | InvalidQuantity | QuoteUnavailable
    | GlobalKillSwitch | MaximumDrawdown | MaximumExposure | MaximumPositionSize | MaximumDcaEntries
    | MaximumDailyLoss | MaximumConcurrentPositions | ExtremeVolatility | SpreadTooWide | HighImpactEventNearby
    | DataQualityInvalid | ProviderUnavailable | ModelFailure | StrategyInvalid

  datatype ExecutionConfig = ExecutionConfig(
    fallbackSpread: real, fixedSlippage: real, percentageSlippage: real,
    volatilitySlippageMultiplier: real, commissionPerTrade: real, commissionPercentage: real)

  /** Where a market order starts: the requested price, a side of the quote, or the middle and half a spread. */
  function Reference(config: ExecutionConfig, request: Request, quote: Option<Quote>): Option<real> {
    if request.requestedPrice.Some? then request.requestedPrice
    else if quote.None? then None
    else
      var q := quote.value;
      if q.bid.Some? && q.ask.Some? then if request.direction == LONG then q.ask else q.bid
      else if q.mid.Some? then Some(q.mid.value + config.fallbackSpread / 2.0 * Sign(request.direction))
      else None
  }

  function SlippageOn(config: ExecutionConfig, reference: real, volatility: real): real {
    config.fixedSlippage + Abs(reference) * config.percentageSlippage
    + Abs(volatility) * config.volatilitySlippageMultiplier
  }

  function CommissionOn(config: ExecutionConfig, executed: real, quantity: real): real {
    config.commissionPerTrade + Abs(executed * quantity) * config.commissionPercentage
  }

  function SpreadOf(config: ExecutionConfig, quote: Option<Quote>): real {
    if quote.Some? && quote.value.bid.Some? && quote.value.ask.Some?
    then quote.value.ask.value - quote.value.bid.value
    else config.fallbackSpread
  }

  function Execute(
    config: ExecutionConfig, request: Request, quote: Option<Quote>, volatility: real): Result<Order, Reason>
  {
    if request.sourceTimestamp.Some? && request.sourceTimestamp.value > request.timestamp then Err(FutureDataRejected)
    else if request.quantity <= 0.0 then Err(InvalidQuantity)
    else
      var reference := Reference(config, request, quote);
      if reference.None? then Err(QuoteUnavailable)
      else
        var slip := SlippageOn(config, reference.value, volatility);
        var isExit := request.orderType == CLOSE_ORDER || request.orderType == REDUCE_ORDER;
        var executed := reference.value + Sign(request.direction) * slip * (if isExit then -1.0 else 1.0);
        var commission := CommissionOn(config, executed, request.quantity);
        Ok(Order(request.positionId, request.symbol, request.direction, request.orderType, executed,
                 request.quantity, slip, commission, request.timestamp, SpreadOf(config, quote)))
  }

  // ------------------------------------------------------------------------ risk

  datatype Limits = Limits(
    maxDrawdown: real, maxExposure: real, maxPositionSize: real, maxDcaEntries: int,
    maxDailyLoss: real, maxConcurrentPositions: int, maxSpread: real)

  datatype Prediction = Prediction(probUp: real, probDown: real, probNeutral: real)

  predicate ValidPrediction(prediction: Option<Prediction>) {
    prediction.Some? &&
    var p := prediction.value;
    && 0.0 <= p.probUp <= 1.0 && 0.0 <= p.probDown <= 1.0 && 0.0 <= p.probNeutral <= 1.0
    && Abs(p.probUp + p.probDown + p.probNeutral - 1.0) < 0.000001
  }

  /** The state of the world that a caller has to state with an entry or a DCA request. */
  datatype Conditions = Conditions(
    extremeVolatility: bool, highImpactNews: bool, dataValid: bool, providerOnline: bool,
    prediction: Option<Prediction>, strategyValid: bool)

  /** What an exposure check looks at in the book. */
  datatype Standing = Standing(
    drawdown: real, exposure: real, dcaEntries: int, dailyDrawdown: real, concurrentPositions: int)

  /** `GlobalKillSwitch.permits`. */
  predicate Permits(enabled: bool, newEntry: bool, increasesExposure: bool) {
    !(enabled && (newEntry || increasesExposure))
  }

  function When(condition: bool, reason: Reason): seq<Reason> { if condition then [reason] else [] }

  /** `PaperRiskEngine.evaluate`: every reason to refuse, in order; an empty list allows. */
  function Refusals(
    limits: Limits, killSwitch: bool, newEntry: bool, increasesExposure: bool,
    standing: Standing, quantity: real, spread: real, conditions: Conditions): seq<Reason>
  {
    When(!Permits(killSwitch, newEntry, increasesExposure), GlobalKillSwitch)
    + When(standing.drawdown >= limits.maxDrawdown, MaximumDrawdown)
    + When(standing.exposure >= limits.maxExposure, MaximumExposure)
    + When(quantity > limits.maxPositionSize, MaximumPositionSize)
    + When(standing.dcaEntries >= limits.maxDcaEntries, MaximumDcaEntries)
    + When(standing.dailyDrawdown >= limits.maxDailyLoss, MaximumDailyLoss)
    + When(standing.concurrentPositions >= limits.maxConcurrentPositions && newEntry, MaximumConcurrentPositions)
    + When(conditions.extremeVolatility, ExtremeVolatility)
    + When(spread > limits.maxSpread, SpreadTooWide)
    + When(conditions.highImpactNews, HighImpactEventNearby)
    + When(!conditions.dataValid, DataQualityInvalid)
    + When(!conditions.providerOnline, ProviderUnavailable)
    + When(!ValidPrediction(conditions.prediction), ModelFailure)
    + When(!conditions.strategyValid, StrategyInvalid)
  }

  /** The spread that the gates see: a side missing from the quote counts as zero. */
  function GateSpread(quote: Option<Quote>): real {
    if quote.None? then 0.0 else quote.value.ask.GetOr(0.0) - quote.value.bid.GetOr(0.0)
  }

  datatype Daily = Daily(
    dailyLossLimit: real, day: Option<int>, dailyStartEquity: real, dailyPnl: real, dailyDrawdown: real, paused: bool)

  /** `DailyRiskManager.update`. */
  function UpdateDaily(daily: Daily, timestamp: int, equity: real): Daily {
    var today := Some(timestamp / DAY);
    var start := if daily.day != today then equity else daily.dailyStartEquity;
    var pnl := equity - start;
    var drawdown := if start != 0.0 then Max(0.0, -pnl / start) else 0.0;
    Daily(daily.dailyLossLimit, today, start, pnl, drawdown, drawdown >= daily.dailyLossLimit)
  }

  // ------------------------------------------------------------ the book's records

  datatype DcaEvent = DcaEvent(positionId: nat, entryNumber: nat, timestamp: int, price: real, quantity: real)

  datatype FinalResult = FinalResult(grossPnl: real, commission: real, slippage: real, netPnl: real)

  datatype Journal = Journal(
    tradeId: nat, timestamp: int, dcaHistory: seq<DcaEvent>, exitReason: Option<string>,
    finalResult: Option<FinalResult>)

  datatype EquityPoint = EquityPoint(timestamp: int, equity: real, drawdown: real)

  datatype ServiceState = STOPPED | RUNNING | PAUSED
}
