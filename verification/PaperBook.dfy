/**
 * The paper-trading book as a state machine (paper/service.py): what each operation does to the
 * whole book, and what every run of operations keeps.
 */
module PaperBook {
  import opened Prelude
  import opened PaperModels

  datatype Config = Config(limits: Limits, execution: ExecutionConfig)

  /**
   * Fresh identifiers are numbers handed out in order, so `positions` is read in order of
   * insertion when it is read from 0 up to `nextId`.
   */
  datatype Book = Book(
    state: ServiceState,
    killSwitch: bool,
    account: Account,
    daily: Daily,
    positions: map<nat, Position>,
    orders: seq<Order>,
    journals: seq<Journal>,
    dcaEvents: seq<DcaEvent>,
    equityCurve: seq<EquityPoint>,
    nextId: nat)

  datatype ExitAction = HOLD | REDUCE_POSITION | EXIT | INVALIDATE

  datatype Error = UnknownPosition | InvalidPositionTransition

  datatype Outcome =
    | Accepted(order: Order)
    | Refused(reasons: seq<Reason>)
    | Marked(pnl: real)
    | ClosedOut(result: FinalResult)
    | Decided(action: ExitAction)
    | Raised(error: Error)
    | Done

  function NewBook(initial: real, dailyLossLimit: real): Book {
    Book(STOPPED, false, NewAccount(initial), Daily(dailyLossLimit, None, 0.0, 0.0, 0.0, false),
         map[], [], [], [], [], 0)
  }

  // ------------------------------------------------------------------------- sums

  function Notional(p: Position): real { p.notional }

  function Unrealized(p: Position): real { p.unrealizedPnl }

  function Quantity(p: Position): real { p.quantity }

  /** A figure summed over the open positions with an id below n. */
  function Total(positions: map<nat, Position>, n: nat, f: Position -> real): real {
    if n == 0 then 0.0
    else Total(positions, n - 1, f) + if n - 1 in positions then f(positions[n - 1]) else 0.0
  }

  function Commission(o: Order): real { o.commission }

  function SlippageCost(o: Order): real { o.slippage * o.quantity }

  function Cost(o: Order): real { o.executedPrice * o.quantity }

  function Filled(o: Order): real { o.quantity }

  /** A figure summed over the orders that carry the id of a position. */
  function OrdersOf(orders: seq<Order>, id: nat, f: Order -> real): real {
    if orders == [] then 0.0
    else
      var last := orders[|orders| - 1];
      OrdersOf(orders[..|orders| - 1], id, f) + if last.positionId == Some(id) then f(last) else 0.0
  }

  function EventsOf(events: seq<DcaEvent>, id: nat): seq<DcaEvent> {
    if events == [] then []
    else
      var last := events[|events| - 1];
      EventsOf(events[..|events| - 1], id) + if last.positionId == id then [last] else []
  }

  // ------------------------------------------------------------------- operations

  function StandingOf(book: Book, dcaEntries: int): Standing {
    Standing(book.account.maxDrawdown, Total(book.positions, book.nextId, Notional), dcaEntries,
             book.daily.dailyDrawdown, |book.positions|)
  }

  function Opened(request: Request, price: real): Position
    requires request.quantity > 0.0
  {
    RawPosition(request.symbol, request.direction, price, price, request.quantity, price * request.quantity,
                0.0, request.timestamp, OPEN, 0, request.stopLoss, request.takeProfit)
  }

  /** `enter`. */
  function Enter(
    config: Config, book: Book, request: Request, quote: Option<Quote>, conditions: Conditions): (Book, Outcome)
  {
    if book.state != RUNNING then (book, Refused([PaperTradingNotRunning]))
    else
      var refusals := Refusals(config.limits, book.killSwitch, true, false, StandingOf(book, 0),
                               request.quantity, GateSpread(quote), conditions);
      if refusals != [] then (book, Refused(refusals))
      else
        match Execute(config.execution, request, quote, 0.0)
        case Err(reason) => (book, Refused([reason]))
        case Ok(filled) =>
          var id, order := book.nextId, filled.(positionId := Some(book.nextId));
          (book.(positions := book.positions[id := Opened(request, order.executedPrice)],
                 orders := book.orders + [order],
                 journals := book.journals + [Journal(id, request.timestamp, [], None, None)],
                 nextId := id + 1),
           Accepted(order))
  }

  /** `mark`. */
  function Mark(book: Book, id: nat, price: real, timestamp: int): (Book, Outcome) {
    if id !in book.positions then (book, Raised(UnknownPosition))
    else
      var position := MarkPosition(book.positions[id], price);
      var positions := book.positions[id := position];
      var account := MarkAccount(book.account, Total(positions, book.nextId, Unrealized));
      (book.(positions := positions, account := account,
             daily := UpdateDaily(book.daily, timestamp, account.equity),
             equityCurve := book.equityCurve + [EquityPoint(timestamp, account.equity, account.maxDrawdown)]),
       Marked(position.unrealizedPnl))
  }

  /** `dca`: it does not ask whether the service is running, and labels the order as the request does. */
  function AddDca(config: Config, book: Book, id: nat, request: Request, quote: Option<Quote>, conditions: Conditions)
    : (Book, Outcome)
  {
    if id !in book.positions then (book, Raised(UnknownPosition))
    else
      var position := book.positions[id];
      var refusals := Refusals(config.limits, book.killSwitch, false, true, StandingOf(book, position.dcaEntries),
                               request.quantity, GateSpread(quote), conditions);
      if refusals != [] then
        if Moved(position.state, DCA_BLOCKED).None? then (book, Raised(InvalidPositionTransition))
        else (book.(positions := book.positions[id := position.(state := OPEN)]), Refused(refusals))
      else
        match Execute(config.execution, request, quote, 0.0)
        case Err(reason) => (book, Refused([reason]))
        case Ok(order) =>
          if Moved(position.state, DCA_ALLOWED).None? then (book, Raised(InvalidPositionTransition))
          else
            var grown := AddTo(position, order.executedPrice, order.quantity).(state := OPEN);
            var event := DcaEvent(id, grown.dcaEntries, request.timestamp, order.executedPrice, order.quantity);
            (book.(positions := book.positions[id := grown],
                   orders := book.orders + [order],
                   dcaEvents := book.dcaEvents + [event]),
             Accepted(order))
  }

  /** The first journal of a trade. */
  function JournalIndex(journals: seq<Journal>, id: nat): Option<nat> {
    if journals == [] then None
    else
      match JournalIndex(journals[..|journals| - 1], id)
      case Some(i) => Some(i)
      case None => if journals[|journals| - 1].tradeId == id then Some(|journals| - 1) else None
  }

  lemma {:induction false} JournalIndexFinds(journals: seq<Journal>, id: nat)
    ensures var found := JournalIndex(journals, id);
      if found.Some? then
        found.value < |journals| && journals[found.value].tradeId == id
        && forall i | 0 <= i < found.value :: journals[i].tradeId != id
      else forall i | 0 <= i < |journals| :: journals[i].tradeId != id
  {
    if journals != [] { JournalIndexFinds(journals[..|journals| - 1], id); }
  }

  function CloseJournal(
    journals: seq<Journal>, id: nat, history: seq<DcaEvent>, reason: string, result: FinalResult): seq<Journal>
  {
    JournalIndexFinds(journals, id);
    match JournalIndex(journals, id)
    case None => journals
    case Some(i) =>
      journals[i := journals[i].(dcaHistory := history, exitReason := Some(reason), finalResult := Some(result))]
  }

  function ResultOf(book: Book, id: nat, price: real): FinalResult
    requires id in book.positions
  {
    var gross := Gross(book.positions[id], price);
    var commission := OrdersOf(book.orders, id, Commission);
    var slippage := OrdersOf(book.orders, id, SlippageCost);
    FinalResult(gross, commission, slippage, gross - commission - slippage)
  }

  /** `close_position`. */
  function Close(book: Book, id: nat, price: real, reason: string): (Book, Outcome) {
    if id !in book.positions then (book, Raised(UnknownPosition))
    else if Moved(book.positions[id].state, EXIT_PENDING).None? then (book, Raised(InvalidPositionTransition))
    else
      var result := ResultOf(book, id, price);
      (book.(account := Realize(book.account, result.grossPnl, result.commission, result.slippage),
             positions := book.positions - {id},
             journals := CloseJournal(book.journals, id, EventsOf(book.dcaEvents, id), reason, result)),
       ClosedOut(result))
  }

  /** What the time-exit engine is told about a position. */
  datatype ExitView = ExitView(
    structureValid: bool, regimeValid: bool, riskAllowed: bool, evenHour: bool, confidence: real,
    nextEvenHourOnly: bool)

  /** `TimeExitEngine.evaluate` (strategy/time_exit.py:28-38), with the reason code it gives. */
  function ExitDecision(view: ExitView, held: int, maxHolding: int, drawdown: real): (ExitAction, string) {
    if !view.structureValid then (INVALIDATE, "EXIT_STRUCTURE_INVALIDATED")
    else if !view.regimeValid then (EXIT, "EXIT_REGIME_CHANGED")
    else if !view.riskAllowed then (EXIT, "EXIT_RISK_LIMIT")
    else if held >= maxHolding then (EXIT, "EXIT_TIME_LIMIT")
    else if view.nextEvenHourOnly && !view.evenHour then (HOLD, "HOLD_UNTIL_NEXT_CHECKPOINT")
    else if drawdown > 0.01 || view.confidence < 0.45 then (REDUCE_POSITION, "REDUCE_WEAKENING_CONTEXT")
    else (HOLD, "HOLD_TREND_REMAINS_VALID")
  }

  /** What `evaluate_exit` does about a decision. */
  function ActOn(book: Book, id: nat, action: ExitAction, code: string, price: real): (Book, Outcome)
    requires id in book.positions
  {
    match action
    case HOLD => (book, Decided(HOLD))
    case REDUCE_POSITION =>
      if Moved(book.positions[id].state, REDUCE).None? then (book, Raised(InvalidPositionTransition))
      else (book.(positions := book.positions[id := book.positions[id].(state := OPEN)]), Decided(action))
    case _ =>
      var (after, outcome) := Close(book, id, price, code);
      (after, if outcome.Raised? then outcome else Decided(action))
  }

  function DecisionOn(book: Book, id: nat, view: ExitView, maxHolding: int, timestamp: int): (ExitAction, string)
    requires id in book.positions
  {
    ExitDecision(view, timestamp - book.positions[id].openedAt, maxHolding, book.account.maxDrawdown)
  }

  /** `evaluate_exit`. */
  function EvaluateExit(
    book: Book, id: nat, view: ExitView, maxHolding: int, price: real, timestamp: int): (Book, Outcome)
  {
    if id !in book.positions then (book, Raised(UnknownPosition))
    else
      var (action, code) := DecisionOn(book, id, view, maxHolding, timestamp);
      ActOn(book, id, action, code, price)
  }

  datatype Operation =
    | SetState(state: ServiceState)
    | SetKillSwitch(enabled: bool)
    | DoEnter(request: Request, quote: Option<Quote>, conditions: Conditions)
    | DoMark(id: nat, price: real, timestamp: int)
    | DoDca(id: nat, request: Request, quote: Option<Quote>, conditions: Conditions)
    | DoClose(id: nat, price: real, reason: string)
    | DoEvaluateExit(id: nat, view: ExitView, maxHolding: int, price: real, timestamp: int)

  function Apply(config: Config, book: Book, op: Operation): (Book, Outcome) {
    match op
    case SetState(state) => (book.(state := state), Done)
    case SetKillSwitch(enabled) => (book.(killSwitch := enabled), Done)
    case DoEnter(request, quote, conditions) => Enter(config, book, request, quote, conditions)
    case DoMark(id, price, timestamp) => Mark(book, id, price, timestamp)
    case DoDca(id, request, quote, conditions) => AddDca(config, book, id, request, quote, conditions)
    case DoClose(id, price, reason) => Close(book, id, price, reason)
    case DoEvaluateExit(id, view, maxHolding, price, timestamp) =>
      EvaluateExit(book, id, view, maxHolding, price, timestamp)
  }

  function Run(config: Config, book: Book, ops: seq<Operation>): Book
    decreases |ops|
  {
    if ops == [] then book else Run(config, Apply(config, book, ops[0]).0, ops[1..])
  }
}
