/** Three runs of the paper book that show where its accounts fall behind. */
module PaperExamples {
  import opened Prelude
  import opened Directions
  import opened PaperModels
  import opened PaperBook
  import opened PaperLaws
  import opened PaperFills
  import opened PaperGuards

  /** One unit of money for every order, and no slippage. */
  predicate FlatFee(config: ExecutionConfig) {
    && config.fixedSlippage == 0.0 && config.percentageSlippage == 0.0
    && config.volatilitySlippageMultiplier == 0.0
    && config.commissionPerTrade == 1.0 && config.commissionPercentage == 0.0
  }

  predicate WideLimits(limits: Limits) {
    && limits.maxDrawdown == 1.0 && limits.maxExposure == 1000.0 && limits.maxPositionSize == 10.0
    && limits.maxDcaEntries == 5 && limits.maxDailyLoss == 1.0 && limits.maxConcurrentPositions == 5
    && limits.maxSpread == 1.0
  }

  /** Nothing in the world speaks against trading. */
  predicate Calm(conditions: Conditions) {
    && !conditions.extremeVolatility && !conditions.highImpactNews && conditions.dataValid
    && conditions.providerOnline && conditions.strategyValid
    && conditions.prediction == Some(Prediction(1.0, 0.0, 0.0))
  }

  /** One unit at a price of one; the request names no position. */
  predicate BuysOne(request: Request) {
    && request.direction == LONG && request.orderType == MARKET && request.quantity == 1.0
    && request.requestedPrice == Some(1.0) && request.sourceTimestamp.None? && request.positionId.None?
  }

  predicate Unhindered(config: Config, request: Request, conditions: Conditions) {
    WideLimits(config.limits) && BuysOne(request) && Calm(conditions)
  }

  predicate Setting(config: Config, request: Request, conditions: Conditions) {
    FlatFee(config.execution) && Unhindered(config, request, conditions)
  }

  lemma SomeSetting() returns (config: Config, request: Request, conditions: Conditions)
    ensures Setting(config, request, conditions)
  {
    config := Config(Limits(1.0, 1000.0, 10.0, 5, 1.0, 5, 1.0), ExecutionConfig(0.0, 0.0, 0.0, 0.0, 1.0, 0.0));
    request := Request("", LONG, MARKET, 1.0, 0, Some(1.0), None, None, None, None);
    conditions := Conditions(false, false, true, true, Some(Prediction(1.0, 0.0, 0.0)), true);
  }

  /** A new account that starts and buys n times. */
  function Bought(config: Config, request: Request, conditions: Conditions, n: nat): Book {
    if n == 0 then Apply(config, NewBook(1000.0, 1.0), SetState(RUNNING)).0
    else Apply(config, Bought(config, request, conditions, n - 1), DoEnter(request, None, conditions)).0
  }

  /** A running book that has made and lost nothing. */
  predicate Fresh(book: Book) {
    && book.state == RUNNING && !book.killSwitch && book.account.maxDrawdown == 0.0
    && book.daily.dailyDrawdown == 0.0
  }

  lemma Within(config: Config, book: Book, request: Request, conditions: Conditions)
    requires Unhindered(config, request, conditions)
    requires Fresh(book) && Total(book.positions, book.nextId, Notional) < 1000.0
    ensures WithinLimits(config, book, 0, request.quantity, None, conditions) && Fillable(request, None)
  {
  }

  lemma TimesNothing(x: real, nothing: real, y: real)
    requires nothing == 0.0
    ensures x * nothing * y == 0.0
  {
  }

  lemma NoSlippage(config: ExecutionConfig, reference: real)
    requires FlatFee(config)
    ensures SlippageOn(config, reference, 0.0) == 0.0
  {
    TimesNothing(Abs(reference), config.percentageSlippage, 1.0);
    TimesNothing(Abs(0.0), config.volatilitySlippageMultiplier, 1.0);
  }

  lemma OneFee(config: ExecutionConfig, price: real, quantity: real)
    requires FlatFee(config)
    ensures CommissionOn(config, price, quantity) == 1.0
  {
    TimesNothing(Abs(price * quantity), config.commissionPercentage, 1.0);
  }

  /** Without slippage an order is filled at the price it starts from. */
  lemma UnslippedFill(config: ExecutionConfig, request: Request, quote: Option<Quote>)
    requires Execute(config, request, quote, 0.0).Ok? && Reference(config, request, quote).Some?
    requires SlippageOn(config, Reference(config, request, quote).value, 0.0) == 0.0
    ensures var o := Execute(config, request, quote, 0.0).value;
      && o.executedPrice == Reference(config, request, quote).value
      && o.commission == CommissionOn(config, o.executedPrice, request.quantity)
  {
    var isExit := request.orderType == CLOSE_ORDER || request.orderType == REDUCE_ORDER;
    TimesNothing(Sign(request.direction), SlippageOn(config, Reference(config, request, quote).value, 0.0),
                 if isExit then -1.0 else 1.0);
  }

  lemma FillsAtOne(config: ExecutionConfig, request: Request)
    requires FlatFee(config) && BuysOne(request)
    ensures Execute(config, request, None, 0.0).Ok?
    ensures var o := Execute(config, request, None, 0.0).value; o.executedPrice == 1.0 && o.commission == 1.0
  {
    assert Execute(config, request, None, 0.0).Ok? && Reference(config, request, None) == Some(1.0);
    NoSlippage(config, 1.0);
    OneFee(config, 1.0, 1.0);
    UnslippedFill(config, request, None);
  }

  lemma BuyIsAccepted(config: Config, book: Book, request: Request, conditions: Conditions)
    requires Setting(config, request, conditions)
    requires Fresh(book) && |book.positions| < 5 && Total(book.positions, book.nextId, Notional) < 1000.0
    ensures var after := Apply(config, book, DoEnter(request, None, conditions)).0;
      && Fresh(after) && after.positions == book.positions[book.nextId := Opened(request, 1.0)]
      && after.nextId == book.nextId + 1
  {
    Within(config, book, request, conditions);
    FillsAtOne(config.execution, request);
    EntryAcceptedIff(config, book, request, None, conditions);
    EnterAccepted(config, book, request, None, conditions);
  }

  lemma TotalOfTwo(p: Position, q: Position, f: Position -> real)
    ensures Total(map[0 := p], 1, f) == f(p) && Total(map[0 := p, 1 := q], 2, f) == f(p) + f(q)
  {
    assert Total(map[0 := p], 0, f) == 0.0;
    assert Total(map[0 := p, 1 := q], 1, f) == f(p);
  }

  predicate HoldsOne(book: Book, p: Position) { Fresh(book) && book.positions == map[0 := p] && book.nextId == 1 }

  predicate HoldsTwo(book: Book, p: Position) {
    Fresh(book) && book.positions == map[0 := p, 1 := p] && book.nextId == 2
  }

  lemma BoughtOnce(config: Config, request: Request, conditions: Conditions)
    requires Setting(config, request, conditions)
    ensures HoldsOne(Bought(config, request, conditions, 1), Opened(request, 1.0))
  {
    var started := Bought(config, request, conditions, 0);
    assert Fresh(started) && started.positions == map[] && started.nextId == 0;
    BuyIsAccepted(config, started, request, conditions);
  }

  lemma BoughtTwice(config: Config, request: Request, conditions: Conditions)
    requires Setting(config, request, conditions)
    ensures HoldsTwo(Bought(config, request, conditions, 2), Opened(request, 1.0))
  {
    BoughtOnce(config, request, conditions);
    TotalOfTwo(Opened(request, 1.0), Opened(request, 1.0), Notional);
    BuyIsAccepted(config, Bought(config, request, conditions, 1), request, conditions);
  }

  // --------------------------------------------------- the equity after a close

  /** Of two positions the second has gained two. */
  predicate SecondGained(book: Book, p: Position) {
    book.positions == map[0 := p, 1 := p.(unrealizedPnl := 2.0)] && book.nextId == 2
  }

  lemma MarkSecond(book: Book, p: Position)
    requires HoldsTwo(book, p) && Gross(p, 3.0) == 2.0
    ensures SecondGained(Mark(book, 1, 3.0, 0).0, p) && EquityCounts(Mark(book, 1, 3.0, 0).0)
  {
  }

  lemma CloseFirst(book: Book, p: Position)
    requires SecondGained(book, p) && p.state == OPEN
    ensures var (after, outcome) := Close(book, 0, 1.0, "done"); outcome.ClosedOut? && !EquityCounts(after)
  {
    TotalOfTwo(p, p.(unrealizedPnl := 2.0), Unrealized);
    EquityAfterClose(book, 0, 1.0, "done");
  }

  /** Two bought, the second marked at three, the first closed: the equity has lost the gain of the second. */
  lemma CloseDropsTheOther() returns (config: Config, request: Request, conditions: Conditions)
    ensures Setting(config, request, conditions)
    ensures var marked := Mark(Bought(config, request, conditions, 2), 1, 3.0, 0).0;
      var (after, outcome) := Close(marked, 0, 1.0, "done");
      EquityCounts(marked) && outcome.ClosedOut? && !EquityCounts(after)
  {
    config, request, conditions := SomeSetting();
    BoughtTwice(config, request, conditions);
    MarkSecond(Bought(config, request, conditions, 2), Opened(request, 1.0));
    CloseFirst(Mark(Bought(config, request, conditions, 2), 1, 3.0, 0).0, Opened(request, 1.0));
  }

  // -------------------------------------------------- a DCA that names no position

  lemma DcaOrder(config: Config, book: Book, request: Request, conditions: Conditions)
    requires AddDca(config, book, 0, request, None, conditions).1.Accepted?
    ensures Execute(config.execution, request, None, 0.0)
         == Ok(AddDca(config, book, 0, request, None, conditions).1.order)
  {
  }

  lemma DcaIsAccepted(config: Config, book: Book, request: Request, conditions: Conditions)
    requires Setting(config, request, conditions) && Sound(config, book) && HoldsOne(book, Opened(request, 1.0))
    ensures AddDca(config, book, 0, request, None, conditions).1.Accepted?
  {
    TotalOfTwo(Opened(request, 1.0), Opened(request, 1.0), Notional);
    Within(config, book, request, conditions);
    DcaAcceptedIff(config, book, 0, request, None, conditions);
  }

  lemma StartKeeps(config: Config, book: Book)
    requires Sound(config, book) && Accounted(book)
    ensures Sound(config, Apply(config, book, SetState(RUNNING)).0)
    ensures Accounted(Apply(config, book, SetState(RUNNING)).0)
  {
  }

  lemma BuyKeeps(config: Config, book: Book, request: Request, conditions: Conditions)
    requires Sound(config, book) && Accounted(book)
    ensures Sound(config, Apply(config, book, DoEnter(request, None, conditions)).0)
    ensures Accounted(Apply(config, book, DoEnter(request, None, conditions)).0)
  {
    EnterSound(config, book, request, None, conditions);
    EnterAccounted(config, book, request, None, conditions);
  }

  lemma {:induction false} BoughtKeeps(config: Config, request: Request, conditions: Conditions, n: nat)
    ensures Sound(config, Bought(config, request, conditions, n)) && Accounted(Bought(config, request, conditions, n))
  {
    if n == 0 {
      NewBookSound(config, 1000.0, 1.0);
      NewBookAccounted(1000.0, 1.0);
      StartKeeps(config, NewBook(1000.0, 1.0));
    } else {
      BoughtKeeps(config, request, conditions, n - 1);
      BuyKeeps(config, Bought(config, request, conditions, n - 1), request, conditions);
    }
  }

  /** The fill and the fee of an order that is not the position's. */
  ghost predicate NotCharged(book: Book, after: Book, order: Order) {
    && 0 in after.positions && !FilledBy(after.orders, 0, after.positions[0])
    && OrdersOf(after.orders, 0, Commission) != OrdersOf(book.orders, 0, Commission) + Commission(order)
  }

  lemma UnnamedDca(config: Config, book: Book, request: Request, conditions: Conditions)
    requires Accounted(book) && request.positionId.None?
    requires AddDca(config, book, 0, request, None, conditions).1.Accepted?
    requires AddDca(config, book, 0, request, None, conditions).1.order.commission == 1.0
    ensures var (after, outcome) := AddDca(config, book, 0, request, None, conditions);
      NotCharged(book, after, outcome.order)
  {
    DcaAccepted(config, book, 0, request, None, conditions);
    DcaKeepsFillsIffLabelled(config, book, 0, request, None, conditions);
    DcaIsChargedIffLabelled(config, book, 0, request, None, conditions);
  }

  lemma UnnamedDcaOn(config: Config, book: Book, request: Request, conditions: Conditions)
    requires Setting(config, request, conditions)
    requires Sound(config, book) && Accounted(book) && HoldsOne(book, Opened(request, 1.0))
    ensures var (after, outcome) := AddDca(config, book, 0, request, None, conditions);
      outcome.Accepted? && NotCharged(book, after, outcome.order)
  {
    DcaIsAccepted(config, book, request, conditions);
    DcaOrder(config, book, request, conditions);
    FillsAtOne(config.execution, request);
    UnnamedDca(config, book, request, conditions);
  }

  /** A second unit bought as a DCA that names no position: its fill and its fee are not the position's. */
  lemma UnnamedDcaIsNotCharged() returns (config: Config, request: Request, conditions: Conditions)
    ensures Setting(config, request, conditions)
    ensures var book := Bought(config, request, conditions, 1);
      var (after, outcome) := AddDca(config, book, 0, request, None, conditions);
      outcome.Accepted? && NotCharged(book, after, outcome.order)
  {
    config, request, conditions := SomeSetting();
    BoughtOnce(config, request, conditions);
    BoughtKeeps(config, request, conditions, 1);
    UnnamedDcaOn(config, Bought(config, request, conditions, 1), request, conditions);
  }

  // ------------------------------------------------------ slippage is paid twice

  /** Half a unit of slippage and no commission. */
  predicate HalfSlippage(config: ExecutionConfig) {
    && config.fixedSlippage == 0.5 && config.percentageSlippage == 0.0
    && config.volatilitySlippageMultiplier == 0.0
    && config.commissionPerTrade == 0.0 && config.commissionPercentage == 0.0
  }

  lemma HalfSlips(config: ExecutionConfig, reference: real)
    requires HalfSlippage(config)
    ensures SlippageOn(config, reference, 0.0) == 0.5
  {
    TimesNothing(Abs(reference), config.percentageSlippage, 1.0);
    TimesNothing(Abs(0.0), config.volatilitySlippageMultiplier, 1.0);
  }

  lemma NoFee(config: ExecutionConfig, price: real, quantity: real)
    requires HalfSlippage(config)
    ensures CommissionOn(config, price, quantity) == 0.0
  {
    TimesNothing(Abs(price * quantity), config.commissionPercentage, 1.0);
  }

  lemma FillsHalfAbove(config: ExecutionConfig, request: Request)
    requires HalfSlippage(config) && BuysOne(request)
    ensures Execute(config, request, None, 0.0).Ok? && Reference(config, request, None) == Some(1.0)
    ensures var o := Execute(config, request, None, 0.0).value;
      o.slippage == 0.5 && o.executedPrice == 1.5 && o.commission == 0.0 && o.quantity == 1.0
  {
    HalfSlips(config, 1.0);
    NoFee(config, 1.5, 1.0);
  }

  lemma EntrySlips(config: Config, book: Book, request: Request, conditions: Conditions)
    requires HalfSlippage(config.execution) && Unhindered(config, request, conditions)
    requires Fresh(book) && book.positions == map[] && book.nextId == 0
    ensures var outcome := Enter(config, book, request, None, conditions).1;
      && outcome.Accepted? && outcome.order.executedPrice == 1.5
      && SlippageCost(outcome.order) == 0.5 && Commission(outcome.order) == 0.0
  {
    Within(config, book, request, conditions);
    EntryAcceptedIff(config, book, request, None, conditions);
    FillsHalfAbove(config.execution, request);
    EnterAccepted(config, book, request, None, conditions);
  }

  lemma SomeSlippage() returns (config: Config, request: Request, conditions: Conditions)
    ensures HalfSlippage(config.execution) && Unhindered(config, request, conditions)
  {
    config, request, conditions := SomeSetting();
    config := config.(execution := ExecutionConfig(0.0, 0.5, 0.0, 0.0, 0.0, 0.0));
  }

  lemma StartedFresh(config: Config, request: Request, conditions: Conditions)
    ensures var started := Bought(config, request, conditions, 0);
      Fresh(started) && started.positions == map[] && started.nextId == 0
  {
  }

  lemma EnterAndClose(config: Config, book: Book, request: Request, conditions: Conditions)
    requires HalfSlippage(config.execution) && Unhindered(config, request, conditions) && Accounted(book)
    requires Fresh(book) && book.positions == map[] && book.nextId == 0
    ensures var (entered, outcome) := Enter(config, book, request, None, conditions);
      && outcome.Accepted? && outcome.order.executedPrice == 1.5
      && Close(entered, 0, 1.0, "done").0.account.balance == book.account.balance - 1.0
  {
    EntrySlips(config, book, request, conditions);
    FillsHalfAbove(config.execution, request);
    RoundTripCost(config, book, request, None, conditions, "done");
  }

  /** One unit bought from a reference of one, filled at one and a half, and closed at one: a whole unit is lost. */
  lemma HalfIsPaidTwice() returns (config: Config, request: Request, conditions: Conditions)
    ensures HalfSlippage(config.execution) && Unhindered(config, request, conditions)
    ensures var started := Bought(config, request, conditions, 0);
      var (entered, outcome) := Enter(config, started, request, None, conditions);
      && outcome.Accepted? && outcome.order.executedPrice == 1.5
      && Close(entered, 0, 1.0, "done").0.account.balance == started.account.balance - 1.0
  {
    config, request, conditions := SomeSlippage();
    StartedFresh(config, request, conditions);
    BoughtKeeps(config, request, conditions, 0);
    EnterAndClose(config, Bought(config, request, conditions, 0), request, conditions);
  }
}
