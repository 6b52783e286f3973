/** Where the money of the paper book comes from: positions, costs and balances read off the order log. */
module PaperFills {
  import opened Prelude
  import opened Directions
  import opened PaperModels
  import opened PaperBook
  import opened PaperLaws

  /** A figure summed over the orders of positions that are no longer open. */
  function Charged(orders: seq<Order>, positions: map<nat, Position>, f: Order -> real): real {
    if orders == [] then 0.0
    else
      var last := orders[|orders| - 1];
      Charged(orders[..|orders| - 1], positions, f)
      + if last.positionId.Some? && last.positionId.value !in positions then f(last) else 0.0
  }

  /** A position is its fills: their quantities, and their cost at its average price. */
  ghost predicate FilledBy(orders: seq<Order>, id: nat, p: Position) {
    && p.quantity == OrdersOf(orders, id, Filled)
    && p.averageEntryPrice * p.quantity == OrdersOf(orders, id, Cost)
  }

  ghost predicate LabelsBelow(orders: seq<Order>, n: nat) {
    forall i | 0 <= i < |orders| :: orders[i].positionId.Some? && orders[i].positionId.value < n
  }

  /** Open positions are their fills, and the account has been charged for the orders of closed positions only. */
  ghost predicate Accounted(book: Book) {
    && LabelsBelow(book.orders, book.nextId)
    && (forall id | id in book.positions :: id < book.nextId && FilledBy(book.orders, id, book.positions[id]))
    && book.account.commission == Charged(book.orders, book.positions, Commission)
    && book.account.slippage == Charged(book.orders, book.positions, SlippageCost)
  }

  /** A DCA request names the position it adds to. */
  predicate WellLabelled(op: Operation) { op.DoDca? ==> op.request.positionId == Some(op.id) }

  // ------------------------------------------------------------------------- sums

  lemma OrdersOfSnoc(orders: seq<Order>, o: Order, id: nat, f: Order -> real)
    ensures OrdersOf(orders + [o], id, f) == OrdersOf(orders, id, f) + if o.positionId == Some(id) then f(o) else 0.0
  {
    assert (orders + [o])[..|orders|] == orders;
  }

  lemma ChargedSnoc(orders: seq<Order>, o: Order, positions: map<nat, Position>, f: Order -> real)
    requires o.positionId.Some?
    ensures Charged(orders + [o], positions, f)
         == Charged(orders, positions, f) + if o.positionId.value !in positions then f(o) else 0.0
  {
    assert (orders + [o])[..|orders|] == orders;
  }

  lemma {:induction false} ChargedRemove(orders: seq<Order>, positions: map<nat, Position>, id: nat, f: Order -> real)
    requires id in positions
    ensures Charged(orders, positions - {id}, f) == Charged(orders, positions, f) + OrdersOf(orders, id, f)
  {
    if orders != [] { ChargedRemove(orders[..|orders| - 1], positions, id, f); }
  }

  lemma {:induction false} ChargedSameKeys(
    orders: seq<Order>, a: map<nat, Position>, b: map<nat, Position>, f: Order -> real)
    requires a.Keys == b.Keys
    ensures Charged(orders, a, f) == Charged(orders, b, f)
  {
    if orders != [] {
      ChargedSameKeys(orders[..|orders| - 1], a, b, f);
      var last := orders[|orders| - 1];
      assert last.positionId.Some? ==> (last.positionId.value in a.Keys <==> last.positionId.value in b.Keys);
    }
  }

  lemma {:induction false} FreshId(
    orders: seq<Order>, positions: map<nat, Position>, n: nat, p: Position, f: Order -> real)
    requires LabelsBelow(orders, n)
    ensures Charged(orders, positions[n := p], f) == Charged(orders, positions, f)
    ensures OrdersOf(orders, n, f) == 0.0
  {
    if orders != [] { FreshId(orders[..|orders| - 1], positions, n, p, f); }
  }

  // ------------------------------------------------------------------- operations

  lemma ExecutedAsRequested(config: ExecutionConfig, request: Request, quote: Option<Quote>, volatility: real)
    requires Execute(config, request, quote, volatility).Ok?
    ensures var o := Execute(config, request, quote, volatility).value;
      o.quantity == request.quantity > 0.0 && o.positionId == request.positionId
  {
  }

  lemma EnterAccounted(config: Config, book: Book, request: Request, quote: Option<Quote>, conditions: Conditions)
    requires Accounted(book)
    ensures Accounted(Enter(config, book, request, quote, conditions).0)
  {
    var (after, outcome) := Enter(config, book, request, quote, conditions);
    if outcome.Accepted? {
      EnterAccepted(config, book, request, quote, conditions);
      OpenAccounted(book, after, request, outcome.order);
    }
  }

  lemma OpenAccounted(book: Book, after: Book, request: Request, o: Order)
    requires Accounted(book) && o.positionId == Some(book.nextId) && o.quantity == request.quantity > 0.0
    requires after.orders == book.orders + [o] && after.account == book.account && after.nextId == book.nextId + 1
    requires after.positions == book.positions[book.nextId := Opened(request, o.executedPrice)]
    ensures Accounted(after)
  {
    var n, p := book.nextId, Opened(request, o.executedPrice);
    FreshId(book.orders, book.positions, n, p, Commission);
    FreshId(book.orders, book.positions, n, p, SlippageCost);
    ChargedSnoc(book.orders, o, after.positions, Commission);
    ChargedSnoc(book.orders, o, after.positions, SlippageCost);
    OnlyFill(book.orders, o, n, Filled);
    OnlyFill(book.orders, o, n, Cost);
    forall k | k in book.positions ensures FilledBy(after.orders, k, after.positions[k]) {
      OtherFill(book.orders, o, k, book.positions[k]);
    }
  }

  lemma AddedCost(p: Position, price: real, quantity: real)
    requires quantity > 0.0
    ensures var g := AddTo(p, price, quantity);
      g.averageEntryPrice * g.quantity == p.averageEntryPrice * p.quantity + price * quantity
  {
  }

  lemma FilledStep(orders: seq<Order>, o: Order, id: nat, p: Position)
    requires FilledBy(orders, id, p) && o.quantity > 0.0
    ensures FilledBy(orders + [o], id, AddTo(p, o.executedPrice, o.quantity).(state := OPEN))
      <==> o.positionId == Some(id)
  {
    AddedCost(p, o.executedPrice, o.quantity);
    OrdersOfSnoc(orders, o, id, Filled);
    OrdersOfSnoc(orders, o, id, Cost);
  }

  /** What an accepted DCA has done to the book. */
  lemma DcaAccepted(config: Config, book: Book, id: nat, request: Request, quote: Option<Quote>, conditions: Conditions)
    requires AddDca(config, book, id, request, quote, conditions).1.Accepted?
    ensures var (after, outcome) := AddDca(config, book, id, request, quote, conditions);
      var o := outcome.order;
      && id in book.positions && o.quantity == request.quantity > 0.0 && o.positionId == request.positionId
      && after.orders == book.orders + [o]
      && after.positions == book.positions[id := AddTo(book.positions[id], o.executedPrice, o.quantity).(state := OPEN)]
      && after.account == book.account && after.nextId == book.nextId
  {
    ExecutedAsRequested(config.execution, request, quote, 0.0);
  }

  /** What an accepted entry has done to the book. */
  lemma EnterAccepted(config: Config, book: Book, request: Request, quote: Option<Quote>, conditions: Conditions)
    requires Enter(config, book, request, quote, conditions).1.Accepted?
    ensures Execute(config.execution, request, quote, 0.0).Ok?
    ensures var (after, outcome) := Enter(config, book, request, quote, conditions);
      var o := Execute(config.execution, request, quote, 0.0).value.(positionId := Some(book.nextId));
      && outcome == Accepted(o) && o.quantity == request.quantity > 0.0
      && after.orders == book.orders + [o]
      && after.positions == book.positions[book.nextId := Opened(request, o.executedPrice)]
      && after.account == book.account && after.nextId == book.nextId + 1
  {
    ExecutedAsRequested(config.execution, request, quote, 0.0);
  }

  /** A DCA keeps the fills of its position exactly when its request carries that position's id. */
  lemma DcaKeepsFillsIffLabelled(
    config: Config, book: Book, id: nat, request: Request, quote: Option<Quote>, conditions: Conditions)
    requires AddDca(config, book, id, request, quote, conditions).1.Accepted?
    requires id in book.positions && FilledBy(book.orders, id, book.positions[id])
    ensures var after := AddDca(config, book, id, request, quote, conditions).0;
      FilledBy(after.orders, id, after.positions[id]) <==> request.positionId == Some(id)
  {
    DcaAccepted(config, book, id, request, quote, conditions);
    FilledStep(book.orders, AddDca(config, book, id, request, quote, conditions).1.order, id, book.positions[id]);
  }

  /**
   * What closing the position will charge for: after a DCA the pending commission and slippage
   * grow by those of the new fill exactly when the request was labelled (or they are zero anyway).
   */
  lemma DcaIsChargedIffLabelled(
    config: Config, book: Book, id: nat, request: Request, quote: Option<Quote>, conditions: Conditions)
    requires AddDca(config, book, id, request, quote, conditions).1.Accepted?
    ensures var (after, outcome) := AddDca(config, book, id, request, quote, conditions);
      && (OrdersOf(after.orders, id, Commission) == OrdersOf(book.orders, id, Commission) + outcome.order.commission
          <==> request.positionId == Some(id) || outcome.order.commission == 0.0)
      && (OrdersOf(after.orders, id, SlippageCost)
          == OrdersOf(book.orders, id, SlippageCost) + SlippageCost(outcome.order)
          <==> request.positionId == Some(id) || SlippageCost(outcome.order) == 0.0)
  {
    var (after, outcome) := AddDca(config, book, id, request, quote, conditions);
    DcaAccepted(config, book, id, request, quote, conditions);
    OrdersOfSnoc(book.orders, outcome.order, id, Commission);
    OrdersOfSnoc(book.orders, outcome.order, id, SlippageCost);
  }

  lemma DcaAccounted(
    config: Config, book: Book, id: nat, request: Request, quote: Option<Quote>, conditions: Conditions)
    requires Accounted(book) && request.positionId == Some(id)
    ensures Accounted(AddDca(config, book, id, request, quote, conditions).0)
  {
    var (after, outcome) := AddDca(config, book, id, request, quote, conditions);
    if outcome.Accepted? {
      DcaAccepted(config, book, id, request, quote, conditions);
      GrowAccounted(book, after, id, outcome.order);
    } else if id in book.positions {
      SameFillsAccounted(book, after, id);
    }
  }

  lemma GrowAccounted(book: Book, after: Book, id: nat, o: Order)
    requires Accounted(book) && id in book.positions && o.positionId == Some(id) && o.quantity > 0.0
    requires after.orders == book.orders + [o] && after.account == book.account && after.nextId == book.nextId
    requires after.positions
         == book.positions[id := AddTo(book.positions[id], o.executedPrice, o.quantity).(state := OPEN)]
    ensures Accounted(after)
  {
    FilledStep(book.orders, o, id, book.positions[id]);
    ChargedSameKeys(book.orders, book.positions, after.positions, Commission);
    ChargedSameKeys(book.orders, book.positions, after.positions, SlippageCost);
    ChargedSnoc(book.orders, o, after.positions, Commission);
    ChargedSnoc(book.orders, o, after.positions, SlippageCost);
    forall k | k in after.positions && k != id ensures FilledBy(after.orders, k, after.positions[k]) {
      OtherFill(book.orders, o, k, book.positions[k]);
    }
  }

  lemma OtherFill(orders: seq<Order>, o: Order, k: nat, p: Position)
    requires FilledBy(orders, k, p) && o.positionId != Some(k)
    ensures FilledBy(orders + [o], k, p)
  {
    OrdersOfSnoc(orders, o, k, Filled);
    OrdersOfSnoc(orders, o, k, Cost);
  }

  /** Touching neither orders, fills nor costs keeps the accounts. */
  lemma SameFillsAccounted(before: Book, after: Book, id: nat)
    requires Accounted(before) && id in before.positions && id in after.positions
    requires after.positions == before.positions[id := after.positions[id]]
    requires after.positions[id].quantity == before.positions[id].quantity
    requires after.positions[id].averageEntryPrice == before.positions[id].averageEntryPrice
    requires after.orders == before.orders && after.nextId == before.nextId
    requires after.account.commission == before.account.commission && after.account.slippage == before.account.slippage
    ensures Accounted(after)
  {
    var p, q := before.positions[id], after.positions[id];
    ChargedSameKeys(before.orders, before.positions, after.positions, Commission);
    ChargedSameKeys(before.orders, before.positions, after.positions, SlippageCost);
    SameFigures(before.orders, id, p, q);
  }

  lemma SameFigures(orders: seq<Order>, id: nat, p: Position, q: Position)
    requires FilledBy(orders, id, p) && q.quantity == p.quantity && q.averageEntryPrice == p.averageEntryPrice
    ensures FilledBy(orders, id, q)
  {
  }

  lemma CloseAccounted(book: Book, id: nat, price: real, reason: string)
    requires Accounted(book)
    ensures Accounted(Close(book, id, price, reason).0)
  {
    if id in book.positions {
      ChargedRemove(book.orders, book.positions, id, Commission);
      ChargedRemove(book.orders, book.positions, id, SlippageCost);
    }
  }

  lemma ExitAccounted(book: Book, id: nat, view: ExitView, maxHolding: int, price: real, timestamp: int)
    requires Accounted(book)
    ensures Accounted(EvaluateExit(book, id, view, maxHolding, price, timestamp).0)
  {
    if id in book.positions {
      var (action, code) := DecisionOn(book, id, view, maxHolding, timestamp);
      var after := EvaluateExit(book, id, view, maxHolding, price, timestamp).0;
      if action == REDUCE_POSITION {
        SameFillsAccounted(book, after, id);
      } else {
        CloseAccounted(book, id, price, code);
      }
    }
  }

  lemma ApplyAccounted(config: Config, book: Book, op: Operation)
    requires Accounted(book) && WellLabelled(op)
    ensures Accounted(Apply(config, book, op).0)
  {
    match op
    case SetState(_) =>
    case SetKillSwitch(_) =>
    case DoEnter(request, quote, conditions) => EnterAccounted(config, book, request, quote, conditions);
    case DoMark(id, price, timestamp) =>
      if id in book.positions { SameFillsAccounted(book, Mark(book, id, price, timestamp).0, id); }
    case DoDca(id, request, quote, conditions) => DcaAccounted(config, book, id, request, quote, conditions);
    case DoClose(id, price, reason) => CloseAccounted(book, id, price, reason);
    case DoEvaluateExit(id, view, maxHolding, price, timestamp) =>
      ExitAccounted(book, id, view, maxHolding, price, timestamp);
  }

  /** Over every run of well-labelled requests, positions are their fills and costs are charged once, at the close. */
  lemma {:induction false} RunAccounted(config: Config, book: Book, ops: seq<Operation>)
    requires Accounted(book) && forall op | op in ops :: WellLabelled(op)
    ensures Accounted(Run(config, book, ops))
    decreases |ops|
  {
    if ops != [] {
      ApplyAccounted(config, book, ops[0]);
      RunAccounted(config, Apply(config, book, ops[0]).0, ops[1..]);
    }
  }

  lemma NewBookAccounted(initial: real, dailyLossLimit: real)
    ensures Accounted(NewBook(initial, dailyLossLimit)) && Conserved(NewBook(initial, dailyLossLimit), initial)
  {
  }

  /** The value of fills at a price, for the side of the position. */
  function Worth(direction: Direction, price: real, quantity: real, cost: real): real {
    Sign(direction) * (price * quantity - cost)
  }

  lemma GrossIsWorth(p: Position, price: real, quantity: real, cost: real)
    requires quantity == p.quantity && cost == p.averageEntryPrice * p.quantity
    ensures Gross(p, price) == Worth(p.direction, price, quantity, cost)
  {
    assert (price - p.averageEntryPrice) * p.quantity == price * quantity - cost;
  }

  lemma CloseNet(book: Book, id: nat, price: real, reason: string)
    requires Close(book, id, price, reason).1.ClosedOut?
    ensures Close(book, id, price, reason).0.account.balance == book.account.balance + ResultOf(book, id, price).netPnl
  {
  }

  /** Closing pays out what the position's own fills are worth at the price, less what they cost. */
  lemma CloseSettlesFills(book: Book, id: nat, price: real, reason: string)
    requires Accounted(book) && Close(book, id, price, reason).1.ClosedOut?
    ensures Close(book, id, price, reason).0.account.balance - book.account.balance
         == Worth(book.positions[id].direction, price, OrdersOf(book.orders, id, Filled),
                  OrdersOf(book.orders, id, Cost))
          - OrdersOf(book.orders, id, Commission) - OrdersOf(book.orders, id, SlippageCost)
  {
    CloseNet(book, id, price, reason);
    GrossIsWorth(book.positions[id], price, OrdersOf(book.orders, id, Filled), OrdersOf(book.orders, id, Cost));
  }

  // ----------------------------------------------------------- equity as it is marked

  /** The equity counts every open position. */
  predicate EquityCounts(book: Book) {
    book.account.equity == book.account.balance + Total(book.positions, book.nextId, Unrealized)
  }

  lemma MarkedEquity(book: Book, id: nat, price: real, timestamp: int)
    requires id in book.positions
    ensures EquityCounts(Mark(book, id, price, timestamp).0)
  {
  }

  predicate MayClose(op: Operation) { op.DoClose? || op.DoEvaluateExit? }

  lemma SameUnrealized(before: Book, after: Book, id: nat, p: Position)
    requires id in before.positions && after.positions == before.positions[id := p] && after.nextId == before.nextId
    requires p.unrealizedPnl == before.positions[id].unrealizedPnl && after.account == before.account
    ensures EquityCounts(before) ==> EquityCounts(after)
  {
    TotalReplace(before.positions, before.nextId, Unrealized, id, p);
  }

  lemma EnterKeepsEquity(config: Config, book: Book, request: Request, quote: Option<Quote>, conditions: Conditions)
    requires EquityCounts(book)
    ensures EquityCounts(Enter(config, book, request, quote, conditions).0)
  {
    if Enter(config, book, request, quote, conditions).1.Accepted? {
      var after := Enter(config, book, request, quote, conditions).0;
      EnterAccepted(config, book, request, quote, conditions);
      TotalBelow(after.positions, book.positions, book.nextId, Unrealized);
    }
  }

  lemma DcaKeepsEquity(
    config: Config, book: Book, id: nat, request: Request, quote: Option<Quote>, conditions: Conditions)
    requires EquityCounts(book)
    ensures EquityCounts(AddDca(config, book, id, request, quote, conditions).0)
  {
    var after := AddDca(config, book, id, request, quote, conditions).0;
    if id in book.positions && after != book { SameUnrealized(book, after, id, after.positions[id]); }
  }

  lemma ApplyKeepsEquity(config: Config, book: Book, op: Operation)
    requires EquityCounts(book) && !MayClose(op)
    ensures EquityCounts(Apply(config, book, op).0)
  {
    match op
    case SetState(_) =>
    case SetKillSwitch(_) =>
    case DoEnter(request, quote, conditions) => EnterKeepsEquity(config, book, request, quote, conditions);
    case DoMark(id, price, timestamp) => if id in book.positions { MarkedEquity(book, id, price, timestamp); }
    case DoDca(id, request, quote, conditions) => DcaKeepsEquity(config, book, id, request, quote, conditions);
  }

  lemma {:induction false} RunKeepsEquity(config: Config, book: Book, ops: seq<Operation>)
    requires EquityCounts(book) && forall op | op in ops :: !MayClose(op)
    ensures EquityCounts(Run(config, book, ops))
    decreases |ops|
  {
    if ops != [] {
      ApplyKeepsEquity(config, book, ops[0]);
      RunKeepsEquity(config, Apply(config, book, ops[0]).0, ops[1..]);
    }
  }

  /** Whatever happened before a mark, from it on the equity counts every open position until one may close. */
  lemma EquityFromMarkOn(config: Config, book: Book, id: nat, price: real, timestamp: int, ops: seq<Operation>)
    requires id in book.positions && forall op | op in ops :: !MayClose(op)
    ensures EquityCounts(Run(config, Apply(config, book, DoMark(id, price, timestamp)).0, ops))
  {
    MarkedEquity(book, id, price, timestamp);
    RunKeepsEquity(config, Apply(config, book, DoMark(id, price, timestamp)).0, ops);
  }

  /** After a close the equity counts none of them: it is right exactly when the rest cancels out. */
  lemma EquityAfterClose(book: Book, id: nat, price: real, reason: string)
    requires Close(book, id, price, reason).1.ClosedOut?
    ensures EquityCounts(Close(book, id, price, reason).0)
      <==> Total(book.positions, book.nextId, Unrealized)
           == if id < book.nextId then book.positions[id].unrealizedPnl else 0.0
  {
    TotalRemove(book.positions, book.nextId, Unrealized, id);
  }

  lemma OnlyFill(orders: seq<Order>, o: Order, n: nat, f: Order -> real)
    requires LabelsBelow(orders, n) && o.positionId == Some(n)
    ensures OrdersOf(orders + [o], n, f) == f(o)
  {
    FreshId(orders, map[], n, RawPosition("", LONG, 1.0, 1.0, 1.0, 1.0, 0.0, 0, OPEN, 0, None, None), f);
    OrdersOfSnoc(orders, o, n, f);
  }

  /** A fill worsened by the slippage is worth minus that slippage at the reference price; an exit order gains it. */
  lemma SlippedWorth(direction: Direction, reference: real, slip: real, quantity: real, side: real)
    ensures Worth(direction, reference, quantity, (reference + Sign(direction) * slip * side) * quantity)
         == -(side * (slip * quantity))
  {
    var s := Sign(direction);
    assert (reference + s * slip * side) * quantity == reference * quantity + s * (side * (slip * quantity));
    assert s * s == 1.0;
    var x := side * (slip * quantity);
    assert s * (-(s * x)) == -(s * s) * x;
  }

  predicate IsExitType(orderType: OrderType) { orderType == CLOSE_ORDER || orderType == REDUCE_ORDER }

  lemma ExecutedWorth(config: ExecutionConfig, request: Request, quote: Option<Quote>, tag: Option<nat>)
    requires Execute(config, request, quote, 0.0).Ok?
    ensures Reference(config, request, quote).Some?
    ensures var o := Execute(config, request, quote, 0.0).value.(positionId := tag);
      o.direction == request.direction && o.orderType == request.orderType &&
      Worth(o.direction, Reference(config, request, quote).value, Filled(o), Cost(o))
      == if IsExitType(request.orderType) then SlippageCost(o) else -SlippageCost(o)
  {
    var o, reference := Execute(config, request, quote, 0.0).value, Reference(config, request, quote).value;
    SlippedWorth(o.direction, reference, o.slippage, o.quantity, if IsExitType(request.orderType) then -1.0 else 1.0);
  }

  /**
   * Slippage is paid twice: it worsens the fill, and it is charged again at the close. Entering
   * and closing at once at the reference price loses both, and the commission.
   */
  lemma RoundTripCost(
    config: Config, book: Book, request: Request, quote: Option<Quote>, conditions: Conditions, reason: string)
    requires Accounted(book) && Enter(config, book, request, quote, conditions).1.Accepted?
    ensures Reference(config.execution, request, quote).Some?
    ensures var (after, outcome) := Enter(config, book, request, quote, conditions);
      var price := Reference(config.execution, request, quote).value;
      var twice := SlippageCost(outcome.order) + SlippageCost(outcome.order);
      Close(after, book.nextId, price, reason).0.account.balance
      == book.account.balance - (if IsExitType(request.orderType) then 0.0 else twice) - Commission(outcome.order)
  {
    var (after, outcome) := Enter(config, book, request, quote, conditions);
    EnterAccepted(config, book, request, quote, conditions);
    ExecutedWorth(config.execution, request, quote, Some(book.nextId));
    EnterAccounted(config, book, request, quote, conditions);
    CloseOnlyFill(book, after, outcome.order, Reference(config.execution, request, quote).value, reason);
  }

  lemma CloseOnlyFill(book: Book, after: Book, o: Order, price: real, reason: string)
    requires LabelsBelow(book.orders, book.nextId) && Accounted(after) && o.positionId == Some(book.nextId)
    requires after.orders == book.orders + [o] && book.nextId in after.positions
    requires after.positions[book.nextId].state == OPEN && after.positions[book.nextId].direction == o.direction
    ensures Close(after, book.nextId, price, reason).0.account.balance
         == after.account.balance + Worth(o.direction, price, Filled(o), Cost(o)) - Commission(o) - SlippageCost(o)
  {
    var n := book.nextId;
    CloseSettlesFills(after, n, price, reason);
    OnlyFill(book.orders, o, n, Commission);
    OnlyFill(book.orders, o, n, SlippageCost);
    OnlyFill(book.orders, o, n, Filled);
    OnlyFill(book.orders, o, n, Cost);
  }
}
