/**
 * The mutable objects of paper trading (paper/models.py, risk.py, service.py). Each method is
 * tied to the book state machine, whose runs are studied in PaperLaws and PaperFills.
 */
module PaperService {
  import opened Prelude
  import opened Timeframes
  import opened Directions
  import opened PaperModels
  import opened PaperBook

  class PaperAccount {
    const initialBalance: real
    var balance: real
    var equity: real
    var freeMargin: real
    var usedMargin: real
    var realizedPnl: real
    var unrealizedPnl: real
    var commission: real
    var slippage: real
    var peakEquity: real
    var maxDrawdown: real

    constructor (initial: real)
      requires initial > 0.0
      ensures Contents() == NewAccount(initial)
    {
      initialBalance, balance, equity, freeMargin, peakEquity := initial, initial, initial, initial, initial;
      usedMargin, realizedPnl, unrealizedPnl, commission, slippage, maxDrawdown := 0.0, 0.0, 0.0, 0.0, 0.0, 0.0;
    }

    ghost function Contents(): Account
      reads this
    {
      Account(initialBalance, balance, equity, freeMargin, usedMargin, realizedPnl, unrealizedPnl,
              commission, slippage, peakEquity, maxDrawdown)
    }

    method Mark(unrealized: real)
      modifies this
      ensures Contents() == MarkAccount(old(Contents()), unrealized)
    {
      unrealizedPnl := unrealized;
      equity := balance + unrealized;
      freeMargin := equity - usedMargin;
      peakEquity := Max(peakEquity, equity);
      var drawdown := if peakEquity != 0.0 then (peakEquity - equity) / peakEquity else 0.0;
      maxDrawdown := Max(maxDrawdown, drawdown);
    }

    method Realized(gross: real, commission: real, slippageCost: real) returns (net: real)
      modifies this
      ensures Contents() == Realize(old(Contents()), gross, commission, slippageCost)
      ensures net == gross - commission - slippageCost
    {
      net := gross - commission - slippageCost;
      realizedPnl := realizedPnl + net;
      this.commission := this.commission + commission;
      slippage := slippage + slippageCost;
      balance := balance + net;
      Mark(0.0);
    }
  }

  class PaperPosition {
    const positionId: nat
    const symbol: string
    const direction: Direction
    const entryPrice: real
    const openedAt: int
    const stopLoss: Option<real>
    const takeProfit: Option<real>
    var averageEntryPrice: real
    var quantity: real
    var notional: real
    var unrealizedPnl: real
    var state: PositionState
    var dcaEntries: nat

    ghost predicate Valid()
      reads this
    {
      quantity > 0.0
    }

    ghost function Contents(): Position
      requires Valid()
      reads this
    {
      RawPosition(symbol, direction, entryPrice, averageEntryPrice, quantity, notional, unrealizedPnl,
                  openedAt, state, dcaEntries, stopLoss, takeProfit)
    }

    /** `PaperPosition.open`; the service starts the new position in WATCHING. */
    constructor (positionId: nat, request: Request, price: real)
      requires request.quantity > 0.0
      ensures Valid() && this.positionId == positionId && Contents() == Opened(request, price).(state := WATCHING)
    {
      this.positionId := positionId;
      symbol, direction, entryPrice, openedAt := request.symbol, request.direction, price, request.timestamp;
      stopLoss, takeProfit := request.stopLoss, request.takeProfit;
      averageEntryPrice, quantity, notional, unrealizedPnl := price, request.quantity, price * request.quantity, 0.0;
      state, dcaEntries := WATCHING, 0;
    }

    method Mark(price: real) returns (pnl: real)
      requires Valid()
      modifies this`unrealizedPnl
      ensures Valid() && Contents() == MarkPosition(old(Contents()), price)
      ensures pnl == unrealizedPnl == Gross(old(Contents()), price)
    {
      unrealizedPnl := (price - averageEntryPrice) * quantity * Sign(direction);
      pnl := unrealizedPnl;
    }

    method Add(price: real, more: real)
      requires Valid() && more > 0.0
      modifies this
      ensures Valid() && Contents() == AddTo(old(Contents()), price, more)
    {
      averageEntryPrice := (averageEntryPrice * quantity + price * more) / (quantity + more);
      quantity := quantity + more;
      notional := averageEntryPrice * quantity;
      dcaEntries := dcaEntries + 1;
    }

    /** Every state change goes through the machine; false stands for InvalidPositionTransition. */
    method MoveTo(target: PositionState) returns (moved: bool)
      modifies this`state
      ensures moved == Moved(old(state), target).Some?
      ensures state == if moved then target else old(state)
    {
      moved := target in Allowed(state);
      if moved { state := target; }
    }

    /** WATCHING, ENTRY_READY, OPEN. */
    method Launch()
      requires Valid() && state == WATCHING
      modifies this`state
      ensures Valid() && Contents() == old(Contents()).(state := OPEN)
    {
      var ready := MoveTo(ENTRY_READY);
      var open := MoveTo(OPEN);
      assert ready && open;
    }

    /** Records a state and returns to OPEN; false when the machine refuses the first step. */
    method PassThrough(via: PositionState) returns (moved: bool)
      requires Valid() && OPEN in Allowed(via)
      modifies this`state
      ensures Valid() && moved == Moved(old(state), via).Some?
      ensures Contents() == if moved then old(Contents()).(state := OPEN) else old(Contents())
    {
      moved := MoveTo(via);
      if moved {
        var open := MoveTo(OPEN);
        assert open;
      }
    }

    /** DCA_ALLOWED, the fill, and OPEN again. */
    method Grow(price: real, more: real) returns (moved: bool)
      requires Valid() && more > 0.0
      modifies this
      ensures Valid() && moved == Moved(old(state), DCA_ALLOWED).Some?
      ensures Contents() == if moved then AddTo(old(Contents()), price, more).(state := OPEN) else old(Contents())
    {
      moved := MoveTo(DCA_ALLOWED);
      if moved {
        Add(price, more);
        var open := MoveTo(OPEN);
        assert open;
      }
    }

    /** EXIT_PENDING and CLOSED, with a last mark. */
    method Finish(price: real) returns (moved: bool, gross: real)
      requires Valid()
      modifies this`state, this`unrealizedPnl
      ensures Valid() && moved == Moved(old(state), EXIT_PENDING).Some?
      ensures moved ==> gross == Gross(old(Contents()), price)
      ensures !moved ==> Contents() == old(Contents())
    {
      gross := 0.0;
      moved := MoveTo(EXIT_PENDING);
      if moved {
        var closed := MoveTo(CLOSED);
        assert closed;
        gross := Mark(price);
      }
    }
  }

  class DailyRiskManager {
    const dailyLossLimit: real
    var day: Option<int>
    var dailyStartEquity: real
    var dailyPnl: real
    var dailyDrawdown: real
    var paused: bool

    constructor (limit: real)
      ensures Contents() == Daily(limit, None, 0.0, 0.0, 0.0, false)
    {
      dailyLossLimit := limit;
      day, dailyStartEquity, dailyPnl, dailyDrawdown, paused := None, 0.0, 0.0, 0.0, false;
    }

    ghost function Contents(): Daily
      reads this
    {
      Daily(dailyLossLimit, day, dailyStartEquity, dailyPnl, dailyDrawdown, paused)
    }

    method Update(timestamp: int, equity: real) returns (nowPaused: bool)
      modifies this
      ensures Contents() == UpdateDaily(old(Contents()), timestamp, equity)
      ensures nowPaused == paused
    {
      if day != Some(timestamp / DAY) {
        day := Some(timestamp / DAY);
        dailyStartEquity, dailyPnl, dailyDrawdown, paused := equity, 0.0, 0.0, false;
      }
      dailyPnl := equity - dailyStartEquity;
      dailyDrawdown := if dailyStartEquity != 0.0 then Max(0.0, -dailyPnl / dailyStartEquity) else 0.0;
      paused := dailyDrawdown >= dailyLossLimit;
      nowPaused := paused;
    }
  }

  class GlobalKillSwitch {
    var enabled: bool

    constructor ()
      ensures !enabled
    {
      enabled := false;
    }

    method Activate()
      modifies this
      ensures enabled
    {
      enabled := true;
    }

    method Deactivate()
      modifies this
      ensures !enabled
    {
      enabled := false;
    }
  }

  class PaperTradingService {
    const config: Config
    const account: PaperAccount
    const daily: DailyRiskManager
    const killSwitch: GlobalKillSwitch
    var state: ServiceState
    var positions: map<nat, PaperPosition>
    var orders: seq<Order>
    var journals: seq<Journal>
    var dcaEvents: seq<DcaEvent>
    var equityCurve: seq<EquityPoint>
    var nextId: nat
    ghost var held: map<nat, Position>
    ghost var objects: set<PaperPosition>

    /** The object of an open position is known, carries its id, and contains what `held` says. */
    ghost predicate HoldsAt(id: nat)
      reads this`positions, this`held, this`objects, this`nextId, if id in positions then {positions[id]} else {}
    {
      id in positions && id in held && id < nextId
      && positions[id] in objects && positions[id].positionId == id
      && positions[id].Valid() && held[id] == positions[id].Contents()
    }

    ghost predicate Valid()
      reads this`positions, this`held, this`objects, this`nextId, objects
    {
      && held.Keys == positions.Keys
      && forall id | id in positions :: positions[id] in objects && HoldsAt(id)
    }

    ghost function Contents(): Book
      reads this, account, daily, killSwitch
    {
      Book(state, killSwitch.enabled, account.Contents(), daily.Contents(), held,
           orders, journals, dcaEvents, equityCurve, nextId)
    }

    constructor (config: Config, initial: real, dailyLossLimit: real)
      requires initial > 0.0
      ensures Valid() && Contents() == NewBook(initial, dailyLossLimit) && this.config == config
      ensures fresh(account) && fresh(daily) && fresh(killSwitch)
    {
      this.config := config;
      account := new PaperAccount(initial);
      daily := new DailyRiskManager(dailyLossLimit);
      killSwitch := new GlobalKillSwitch();
      state, positions, nextId := STOPPED, map[], 0;
      held, objects := map[], {};
      orders, journals, dcaEvents, equityCurve := [], [], [], [];
    }

    /** `start`, `pause` and `stop`. */
    method SetServiceState(target: ServiceState)
      requires Valid()
      modifies this`state
      ensures Valid() && Contents() == old(Contents()).(state := target)
    {
      state := target;
    }

    /** `sum(p.notional for p in positions)`, over the ids below n. */
    function SumNotional(n: nat): (sum: real)
      requires Valid()
      reads this`positions, this`held, this`objects, this`nextId, objects
      ensures sum == Total(held, n, Notional)
    {
      if n == 0 then 0.0
      else SumNotional(n - 1) + if n - 1 in positions then positions[n - 1].notional else 0.0
    }

    function SumUnrealized(n: nat): (sum: real)
      requires Valid()
      reads this`positions, this`held, this`objects, this`nextId, objects
      ensures sum == Total(held, n, Unrealized)
    {
      if n == 0 then 0.0
      else SumUnrealized(n - 1) + if n - 1 in positions then positions[n - 1].unrealizedPnl else 0.0
    }

    method MarkOne(id: nat, price: real) returns (pnl: real)
      requires Valid() && id in positions
      modifies this`held, positions[id]
      ensures Valid() && positions == old(positions)
      ensures var before := old(Contents());
        Contents() == before.(positions := before.positions[id := MarkPosition(before.positions[id], price)])
      ensures pnl == Gross(old(held)[id], price)
    {
      pnl := positions[id].Mark(price);
      held := held[id := positions[id].Contents()];
    }

    /** The account, the daily risk manager and the equity curve, after a change of unrealized profit. */
    method RecordEquity(unrealized: real, timestamp: int)
      requires Valid()
      modifies this`equityCurve, account, daily
      ensures Valid()
      ensures var before, marked := old(Contents()), MarkAccount(old(account.Contents()), unrealized);
        Contents() == before.(account := marked, daily := UpdateDaily(before.daily, timestamp, marked.equity),
          equityCurve := before.equityCurve + [EquityPoint(timestamp, marked.equity, marked.maxDrawdown)])
    {
      account.Mark(unrealized);
      var _ := daily.Update(timestamp, account.equity);
      equityCurve := equityCurve + [EquityPoint(timestamp, account.equity, account.maxDrawdown)];
    }

    method MarkOpen(id: nat, price: real, timestamp: int) returns (outcome: Outcome)
      requires Valid()
      modifies this`held, this`equityCurve, account, daily, objects
      ensures Valid() && positions == old(positions)
      ensures (Contents(), outcome) == PaperBook.Mark(old(Contents()), id, price, timestamp)
    {
      if id !in positions { return Raised(UnknownPosition); }
      var pnl := MarkOne(id, price);
      RecordEquity(SumUnrealized(nextId), timestamp);
      return Marked(pnl);
    }

    lemma HeldCount()
      requires Valid()
      ensures |positions| == |held|
    {
      assert |positions.Keys| == |positions| && |held.Keys| == |held|;
    }

    /** What the risk gate is shown of the book. */
    function StandingNow(dcaEntries: int): (standing: Standing)
      requires Valid()
      reads this, account, daily, killSwitch, objects
      ensures standing == StandingOf(Contents(), dcaEntries)
    {
      HeldCount();
      Standing(account.maxDrawdown, SumNotional(nextId), dcaEntries, daily.dailyDrawdown, |positions|)
    }

    /** The new position enters the book under the next id. */
    method Admit(request: Request, price: real)
      requires Valid() && request.quantity > 0.0
      modifies this`positions, this`held, this`objects, this`nextId
      ensures Valid() && fresh(objects - old(objects))
      ensures var before := old(Contents());
        Contents() == before.(positions := before.positions[before.nextId := Opened(request, price)],
                              nextId := before.nextId + 1)
    {
      var position := new PaperPosition(nextId, request, price);
      position.Launch();
      positions, held := positions[nextId := position], held[nextId := position.Contents()];
      objects, nextId := objects + {position}, nextId + 1;
    }

    /** The new position, with its order and its journal. */
    method OpenOne(request: Request, filled: Order) returns (order: Order)
      requires Valid() && request.quantity > 0.0
      modifies this`positions, this`held, this`objects, this`nextId, this`orders, this`journals
      ensures Valid() && fresh(objects - old(objects))
      ensures order == filled.(positionId := Some(old(nextId)))
      ensures var before := old(Contents());
        Contents() == before.(
          positions := before.positions[before.nextId := Opened(request, filled.executedPrice)],
          orders := before.orders + [order],
          journals := before.journals + [Journal(before.nextId, request.timestamp, [], None, None)],
          nextId := before.nextId + 1)
    {
      order := filled.(positionId := Some(nextId));
      orders := orders + [order];
      journals := journals + [Journal(nextId, request.timestamp, [], None, None)];
      Admit(request, filled.executedPrice);
    }

    method Enter(request: Request, quote: Option<Quote>, conditions: Conditions) returns (outcome: Outcome)
      requires Valid()
      modifies this`positions, this`held, this`objects, this`nextId, this`orders, this`journals
      ensures Valid() && fresh(objects - old(objects))
      ensures (Contents(), outcome) == PaperBook.Enter(config, old(Contents()), request, quote, conditions)
    {
      if state != RUNNING { return Refused([PaperTradingNotRunning]); }
      var gate := Refusals(config.limits, killSwitch.enabled, true, false, StandingNow(0),
                           request.quantity, GateSpread(quote), conditions);
      if gate != [] { return Refused(gate); }
      match Execute(config.execution, request, quote, 0.0)
      case Err(reason) => return Refused([reason]);
      case Ok(filled) =>
        var order := OpenOne(request, filled);
        return Accepted(order);
    }

    method PassThrough(id: nat, via: PositionState) returns (moved: bool)
      requires Valid() && id in positions && OPEN in Allowed(via)
      modifies this`held, positions[id]
      ensures Valid()
      ensures var before := old(Contents());
        && moved == Moved(before.positions[id].state, via).Some?
        && Contents() == if moved
           then before.(positions := before.positions[id := before.positions[id].(state := OPEN)]) else before
    {
      moved := positions[id].PassThrough(via);
      if moved { held := held[id := positions[id].Contents()]; }
    }

    method GrowHeld(id: nat, price: real, quantity: real) returns (moved: bool, entryNumber: nat)
      requires Valid() && id in positions && quantity > 0.0
      modifies this`held, positions[id]
      ensures Valid()
      ensures var before := old(Contents());
        var grown := AddTo(before.positions[id], price, quantity).(state := OPEN);
        && moved == Moved(before.positions[id].state, DCA_ALLOWED).Some?
        && (moved ==> entryNumber == grown.dcaEntries)
        && Contents() == if moved then before.(positions := before.positions[id := grown]) else before
    {
      moved := positions[id].Grow(price, quantity);
      entryNumber := positions[id].dcaEntries;
      if moved { held := held[id := positions[id].Contents()]; }
    }

    method RecordFill(order: Order, event: DcaEvent)
      requires Valid()
      modifies this`orders, this`dcaEvents
      ensures Valid()
      ensures var before := old(Contents());
        Contents() == before.(orders := before.orders + [order], dcaEvents := before.dcaEvents + [event])
    {
      orders := orders + [order];
      dcaEvents := dcaEvents + [event];
    }

    method GrowOne(id: nat, request: Request, order: Order) returns (moved: bool)
      requires Valid() && id in positions && order.quantity > 0.0
      modifies this`held, this`orders, this`dcaEvents, positions[id]
      ensures Valid()
      ensures var before := old(Contents());
        var grown := AddTo(before.positions[id], order.executedPrice, order.quantity).(state := OPEN);
        && moved == Moved(before.positions[id].state, DCA_ALLOWED).Some?
        && Contents() == if moved
           then before.(positions := before.positions[id := grown], orders := before.orders + [order],
             dcaEvents := before.dcaEvents
               + [DcaEvent(id, grown.dcaEntries, request.timestamp, order.executedPrice, order.quantity)])
           else before
    {
      var entryNumber;
      moved, entryNumber := GrowHeld(id, order.executedPrice, order.quantity);
      if moved {
        RecordFill(order, DcaEvent(id, entryNumber, request.timestamp, order.executedPrice, order.quantity));
      }
    }

    method Dca(id: nat, request: Request, quote: Option<Quote>, conditions: Conditions) returns (outcome: Outcome)
      requires Valid()
      modifies this`held, this`orders, this`dcaEvents, objects
      ensures Valid()
      ensures (Contents(), outcome) == AddDca(config, old(Contents()), id, request, quote, conditions)
    {
      if id !in positions { return Raised(UnknownPosition); }
      var gate := Refusals(config.limits, killSwitch.enabled, false, true, StandingNow(positions[id].dcaEntries),
                           request.quantity, GateSpread(quote), conditions);
      if gate != [] {
        var blocked := PassThrough(id, DCA_BLOCKED);
        return if blocked then Refused(gate) else Raised(InvalidPositionTransition);
      }
      match Execute(config.execution, request, quote, 0.0)
      case Err(reason) => return Refused([reason]);
      case Ok(order) =>
        var allowed := GrowOne(id, request, order);
        return if allowed then Accepted(order) else Raised(InvalidPositionTransition);
    }

    /** The position leaves the book. */
    method TakeOut(id: nat, price: real) returns (moved: bool, gross: real)
      requires Valid() && id in positions
      modifies this`held, this`positions, positions[id]
      ensures Valid()
      ensures var before := old(Contents());
        && moved == Moved(before.positions[id].state, EXIT_PENDING).Some?
        && (moved ==> gross == Gross(before.positions[id], price))
        && Contents() == if moved then before.(positions := before.positions - {id}) else before
    {
      moved, gross := positions[id].Finish(price);
      if moved {
        positions := positions - {id};
        held := held - {id};
      }
    }

    method SettleAccount(gross: real, commission: real, slippage: real) returns (net: real)
      requires Valid()
      modifies account
      ensures Valid() && net == gross - commission - slippage
      ensures var before := old(Contents());
        Contents() == before.(account := Realize(before.account, gross, commission, slippage))
    {
      net := account.Realized(gross, commission, slippage);
    }

    method ClosePosition(id: nat, price: real, reason: string) returns (outcome: Outcome)
      requires Valid()
      modifies this`held, this`positions, this`journals, account, objects
      ensures Valid()
      ensures (Contents(), outcome) == Close(old(Contents()), id, price, reason)
    {
      if id !in positions { return Raised(UnknownPosition); }
      var moved, gross := TakeOut(id, price);
      if !moved { return Raised(InvalidPositionTransition); }
      var commission := OrdersOf(orders, id, Commission);
      var slippage := OrdersOf(orders, id, SlippageCost);
      var net := SettleAccount(gross, commission, slippage);
      var result := FinalResult(gross, commission, slippage, net);
      journals := CloseJournal(journals, id, EventsOf(dcaEvents, id), reason, result);
      return ClosedOut(result);
    }

    method EvaluateExitOf(
      id: nat, view: ExitView, maxHolding: int, price: real, timestamp: int) returns (outcome: Outcome)
      requires Valid()
      modifies this`held, this`positions, this`journals, account, objects
      ensures Valid()
      ensures (Contents(), outcome) == EvaluateExit(old(Contents()), id, view, maxHolding, price, timestamp)
    {
      if id !in positions { return Raised(UnknownPosition); }
      var (action, code) := ExitDecision(view, timestamp - positions[id].openedAt, maxHolding, account.maxDrawdown);
      assert (action, code) == DecisionOn(Contents(), id, view, maxHolding, timestamp);
      match action
      case HOLD => return Decided(HOLD);
      case REDUCE_POSITION =>
        var reduced := PassThrough(id, REDUCE);
        return if reduced then Decided(action) else Raised(InvalidPositionTransition);
      case _ =>
        outcome := ClosePosition(id, price, code);
        return if outcome.Raised? then outcome else Decided(action);
    }
  }
}
