/** What every run of the paper book keeps: limits, states, and money. */
module PaperLaws {
  import opened Prelude
  import opened PaperModels
  import opened PaperBook

  // -------------------------------------------------------------------- the gate

  /** The gate allows exactly when none of its fourteen conditions is met. */
  lemma GateAllowsIff(
    limits: Limits, killSwitch: bool, newEntry: bool, increasesExposure: bool,
    standing: Standing, quantity: real, spread: real, conditions: Conditions)
    ensures Refusals(limits, killSwitch, newEntry, increasesExposure, standing, quantity, spread, conditions) == [] <==>
      && (killSwitch ==> !newEntry && !increasesExposure)
      && standing.drawdown < limits.maxDrawdown && standing.exposure < limits.maxExposure
      && quantity <= limits.maxPositionSize && standing.dcaEntries < limits.maxDcaEntries
      && standing.dailyDrawdown < limits.maxDailyLoss
      && (newEntry ==> standing.concurrentPositions < limits.maxConcurrentPositions)
      && !conditions.extremeVolatility && spread <= limits.maxSpread && !conditions.highImpactNews
      && conditions.dataValid && conditions.providerOnline && ValidPrediction(conditions.prediction)
      && conditions.strategyValid
  {
  }

  // ------------------------------------------------------------- limits and states

  ghost predicate SoundPosition(limits: Limits, p: Position) {
    && p.state == OPEN && p.dcaEntries <= limits.maxDcaEntries
    && p.quantity <= (1 + p.dcaEntries) as real * limits.maxPositionSize
    && p.notional == p.averageEntryPrice * p.quantity
  }

  ghost predicate Numbered(journals: seq<Journal>, positions: map<nat, Position>, n: nat) {
    && |journals| == n
    && (forall i | 0 <= i < n :: journals[i].tradeId == i && (journals[i].finalResult.None? <==> i in positions))
  }

  ghost predicate Sound(config: Config, book: Book) {
    && (forall id | id in book.positions :: id < book.nextId && SoundPosition(config.limits, book.positions[id]))
    && |book.positions| <= MaxInt(0, config.limits.maxConcurrentPositions)
    && Numbered(book.journals, book.positions, book.nextId)
  }

  lemma NewBookSound(config: Config, initial: real, dailyLossLimit: real)
    ensures Sound(config, NewBook(initial, dailyLossLimit))
  {
  }

  lemma OpenedIsSound(limits: Limits, request: Request, price: real)
    requires 0.0 < request.quantity <= limits.maxPositionSize && 0 < limits.maxDcaEntries
    ensures SoundPosition(limits, Opened(request, price))
  {
    assert 1.0 * limits.maxPositionSize == limits.maxPositionSize;
  }

  /** Opening a sound position under the next id keeps the book sound. */
  lemma OpeningSound(config: Config, before: Book, after: Book, p: Position, journal: Journal)
    requires Sound(config, before) && SoundPosition(config.limits, p)
    requires |before.positions| < config.limits.maxConcurrentPositions
    requires journal.tradeId == before.nextId && journal.finalResult.None?
    requires after.positions == before.positions[before.nextId := p] && after.nextId == before.nextId + 1
    requires after.journals == before.journals + [journal]
    ensures Sound(config, after)
  {
  }

  lemma EnterSound(config: Config, book: Book, request: Request, quote: Option<Quote>, conditions: Conditions)
    requires Sound(config, book)
    ensures Sound(config, Enter(config, book, request, quote, conditions).0)
  {
    var (after, outcome) := Enter(config, book, request, quote, conditions);
    if outcome.Accepted? {
      GateAllowsIff(config.limits, book.killSwitch, true, false, StandingOf(book, 0),
                    request.quantity, GateSpread(quote), conditions);
      OpenedIsSound(config.limits, request, outcome.order.executedPrice);
      OpeningSound(config, book, after, Opened(request, outcome.order.executedPrice), after.journals[|book.journals|]);
    }
  }

  /** Replacing one open position by a sound one keeps the book sound. */
  lemma ReplaceSound(config: Config, before: Book, after: Book, id: nat, p: Position)
    requires Sound(config, before) && id in before.positions && SoundPosition(config.limits, p)
    requires after.positions == before.positions[id := p]
    requires after.journals == before.journals && after.nextId == before.nextId
    ensures Sound(config, after)
  {
    assert after.positions.Keys == before.positions.Keys;
    assert |after.positions| == |after.positions.Keys| == |before.positions|;
    assert Numbered(after.journals, after.positions, after.nextId);
  }

  lemma MarkedIsSound(limits: Limits, p: Position, price: real)
    requires SoundPosition(limits, p)
    ensures SoundPosition(limits, MarkPosition(p, price))
  {
  }

  lemma MarkSound(config: Config, book: Book, id: nat, price: real, timestamp: int)
    requires Sound(config, book)
    ensures Sound(config, Mark(book, id, price, timestamp).0)
  {
    if id in book.positions {
      MarkedIsSound(config.limits, book.positions[id], price);
      ReplaceSound(config, book, Mark(book, id, price, timestamp).0, id, MarkPosition(book.positions[id], price));
    }
  }

  lemma GrownIsSound(limits: Limits, p: Position, price: real, quantity: real)
    requires SoundPosition(limits, p) && p.dcaEntries < limits.maxDcaEntries
    requires 0.0 < quantity <= limits.maxPositionSize
    ensures SoundPosition(limits, AddTo(p, price, quantity))
  {
    var m, k := limits.maxPositionSize, (1 + p.dcaEntries) as real;
    assert (2 + p.dcaEntries) as real * m == k * m + m;
  }

  lemma DcaSound(
    config: Config, book: Book, id: nat, request: Request, quote: Option<Quote>, conditions: Conditions)
    requires Sound(config, book)
    ensures Sound(config, AddDca(config, book, id, request, quote, conditions).0)
    ensures AddDca(config, book, id, request, quote, conditions).1 != Raised(InvalidPositionTransition)
  {
    var (after, outcome) := AddDca(config, book, id, request, quote, conditions);
    if id in book.positions {
      var p := book.positions[id];
      if outcome.Accepted? {
        GateAllowsIff(config.limits, book.killSwitch, false, true, StandingOf(book, p.dcaEntries),
                      request.quantity, GateSpread(quote), conditions);
        GrownIsSound(config.limits, p, outcome.order.executedPrice, outcome.order.quantity);
      }
      ReplaceSound(config, book, after, id, after.positions[id]);
    }
  }

  lemma JournalIndexIs(journals: seq<Journal>, positions: map<nat, Position>, n: nat, id: nat)
    requires Numbered(journals, positions, n) && id < n
    ensures JournalIndex(journals, id) == Some(id)
  {
    JournalIndexFinds(journals, id);
    assert journals[id].tradeId == id;
  }

  lemma CloseSound(config: Config, book: Book, id: nat, price: real, reason: string)
    requires Sound(config, book)
    ensures Sound(config, Close(book, id, price, reason).0)
    ensures Close(book, id, price, reason).1 != Raised(InvalidPositionTransition)
  {
    if id in book.positions {
      JournalIndexIs(book.journals, book.positions, book.nextId, id);
      assert (book.positions - {id}).Keys == book.positions.Keys - {id};
      assert |book.positions - {id}| <= |book.positions| by {
        assert |(book.positions - {id}).Keys| <= |book.positions.Keys|;
      }
    }
  }

  lemma ReduceSound(config: Config, book: Book, id: nat, code: string, price: real)
    requires Sound(config, book) && id in book.positions
    ensures Sound(config, ActOn(book, id, REDUCE_POSITION, code, price).0)
    ensures ActOn(book, id, REDUCE_POSITION, code, price).1 != Raised(InvalidPositionTransition)
  {
    ReplaceSound(config, book, ActOn(book, id, REDUCE_POSITION, code, price).0, id, book.positions[id]);
  }

  lemma ActOnSound(config: Config, book: Book, id: nat, action: ExitAction, code: string, price: real)
    requires Sound(config, book) && id in book.positions
    ensures Sound(config, ActOn(book, id, action, code, price).0)
    ensures ActOn(book, id, action, code, price).1 != Raised(InvalidPositionTransition)
  {
    match action
    case HOLD =>
    case REDUCE_POSITION => ReduceSound(config, book, id, code, price);
    case _ => CloseSound(config, book, id, price, code);
  }

  lemma ExitSound(config: Config, book: Book, id: nat, view: ExitView, maxHolding: int, price: real, timestamp: int)
    requires Sound(config, book)
    ensures Sound(config, EvaluateExit(book, id, view, maxHolding, price, timestamp).0)
    ensures EvaluateExit(book, id, view, maxHolding, price, timestamp).1 != Raised(InvalidPositionTransition)
  {
    if id in book.positions {
      var (action, code) := DecisionOn(book, id, view, maxHolding, timestamp);
      ActOnSound(config, book, id, action, code, price);
    }
  }

  /** What an operation leaves behind on a sound book. */
  ghost predicate LeftSound(config: Config, result: (Book, Outcome)) {
    Sound(config, result.0) && result.1 != Raised(InvalidPositionTransition)
  }

  lemma EnterLeavesSound(config: Config, book: Book, request: Request, quote: Option<Quote>, conditions: Conditions)
    requires Sound(config, book)
    ensures LeftSound(config, Apply(config, book, DoEnter(request, quote, conditions)))
  {
    EnterSound(config, book, request, quote, conditions);
  }

  lemma DcaLeavesSound(
    config: Config, book: Book, id: nat, request: Request, quote: Option<Quote>, conditions: Conditions)
    requires Sound(config, book)
    ensures LeftSound(config, Apply(config, book, DoDca(id, request, quote, conditions)))
  {
    DcaSound(config, book, id, request, quote, conditions);
  }

  lemma MarkLeavesSound(config: Config, book: Book, id: nat, price: real, timestamp: int)
    requires Sound(config, book)
    ensures LeftSound(config, Apply(config, book, DoMark(id, price, timestamp)))
  {
    MarkSound(config, book, id, price, timestamp);
  }

  lemma CloseLeavesSound(config: Config, book: Book, id: nat, price: real, reason: string)
    requires Sound(config, book)
    ensures LeftSound(config, Apply(config, book, DoClose(id, price, reason)))
  {
    CloseSound(config, book, id, price, reason);
  }

  lemma ExitLeavesSound(
    config: Config, book: Book, id: nat, view: ExitView, maxHolding: int, price: real, timestamp: int)
    requires Sound(config, book)
    ensures LeftSound(config, Apply(config, book, DoEvaluateExit(id, view, maxHolding, price, timestamp)))
  {
    ExitSound(config, book, id, view, maxHolding, price, timestamp);
  }

  /** No operation on a sound book leaves it unsound or makes the state machine refuse. */
  lemma ApplySound(config: Config, book: Book, op: Operation)
    requires Sound(config, book)
    ensures LeftSound(config, Apply(config, book, op))
  {
    match op
    case SetState(_) =>
    case SetKillSwitch(_) =>
    case DoEnter(request, quote, conditions) => EnterLeavesSound(config, book, request, quote, conditions);
    case DoMark(id, price, timestamp) => MarkLeavesSound(config, book, id, price, timestamp);
    case DoDca(id, request, quote, conditions) => DcaLeavesSound(config, book, id, request, quote, conditions);
    case DoClose(id, price, reason) => CloseLeavesSound(config, book, id, price, reason);
    case DoEvaluateExit(id, view, maxHolding, price, timestamp) =>
      ExitLeavesSound(config, book, id, view, maxHolding, price, timestamp);
  }

  /** Over every run from a sound book: every position open and within its limits, no invalid transition at the end. */
  lemma {:induction false} RunSound(config: Config, book: Book, ops: seq<Operation>, next: Operation)
    requires Sound(config, book)
    ensures Sound(config, Run(config, book, ops))
    ensures Apply(config, Run(config, book, ops), next).1 != Raised(InvalidPositionTransition)
    decreases |ops|
  {
    ApplySound(config, Run(config, book, []), next);
    if ops != [] {
      ApplySound(config, book, ops[0]);
      RunSound(config, Apply(config, book, ops[0]).0, ops[1..], next);
    }
  }

  // ------------------------------------------------------------- sums over a book

  lemma {:induction false} TotalReplace(
    positions: map<nat, Position>, n: nat, f: Position -> real, id: nat, p: Position)
    requires id in positions
    ensures Total(positions[id := p], n, f) == Total(positions, n, f) + if id < n then f(p) - f(positions[id]) else 0.0
  {
    if n > 0 { TotalReplace(positions, n - 1, f, id, p); }
  }

  lemma {:induction false} TotalRemove(positions: map<nat, Position>, n: nat, f: Position -> real, id: nat)
    requires id in positions
    ensures Total(positions - {id}, n, f) == Total(positions, n, f) - if id < n then f(positions[id]) else 0.0
  {
    if n > 0 { TotalRemove(positions, n - 1, f, id); }
  }

  lemma {:induction false} TotalBelow(a: map<nat, Position>, b: map<nat, Position>, n: nat, f: Position -> real)
    requires forall i: nat | i < n :: (i in a <==> i in b) && (i in a ==> a[i] == b[i])
    ensures Total(a, n, f) == Total(b, n, f)
  {
    if n > 0 { TotalBelow(a, b, n - 1, f); }
  }

  // ------------------------------------------------------------- the kill switch

  function OpenQuantity(book: Book): real { Total(book.positions, book.nextId, Quantity) }

  lemma KillSwitchRefuses(config: Config, book: Book, op: Operation)
    requires book.killSwitch && (op.DoEnter? || op.DoDca?)
    ensures !Apply(config, book, op).1.Accepted?
  {
    match op
    case DoEnter(request, quote, conditions) =>
      GateAllowsIff(config.limits, true, true, false, StandingOf(book, 0), request.quantity, GateSpread(quote),
                    conditions);
    case DoDca(id, request, quote, conditions) =>
      if id in book.positions {
        GateAllowsIff(config.limits, true, false, true, StandingOf(book, book.positions[id].dcaEntries),
                      request.quantity, GateSpread(quote), conditions);
      }
  }

  lemma CloseReduces(book: Book, id: nat, price: real, reason: string)
    ensures OpenQuantity(Close(book, id, price, reason).0) <= OpenQuantity(book)
  {
    if id in book.positions { TotalRemove(book.positions, book.nextId, Quantity, id); }
  }

  lemma SameQuantity(before: Book, after: Book, id: nat, p: Position)
    requires id in before.positions && after.positions == before.positions[id := p] && after.nextId == before.nextId
    requires p.quantity == before.positions[id].quantity
    ensures OpenQuantity(after) == OpenQuantity(before)
  {
    TotalReplace(before.positions, before.nextId, Quantity, id, p);
  }

  /** While the kill switch is on, no operation adds to what is held. */
  lemma KillSwitchNeverGrows(config: Config, book: Book, op: Operation)
    requires book.killSwitch && op != SetKillSwitch(false)
    ensures OpenQuantity(Apply(config, book, op).0) <= OpenQuantity(book)
    ensures Apply(config, book, op).0.killSwitch
  {
    var after := Apply(config, book, op).0;
    if op.DoEnter? || op.DoDca? { KillSwitchRefuses(config, book, op); }
    match op
    case SetState(_) =>
    case SetKillSwitch(_) =>
    case DoEnter(_, _, _) =>
    case DoMark(id, _, _) => if id in book.positions { SameQuantity(book, after, id, after.positions[id]); }
    case DoDca(id, _, _, _) =>
      if id in book.positions && after != book { SameQuantity(book, after, id, after.positions[id]); }
    case DoClose(id, price, reason) => CloseReduces(book, id, price, reason);
    case DoEvaluateExit(id, view, maxHolding, price, timestamp) =>
      ExitReduces(book, id, view, maxHolding, price, timestamp);
  }

  lemma ExitReduces(book: Book, id: nat, view: ExitView, maxHolding: int, price: real, timestamp: int)
    ensures OpenQuantity(EvaluateExit(book, id, view, maxHolding, price, timestamp).0) <= OpenQuantity(book)
  {
    if id in book.positions {
      var (action, code) := DecisionOn(book, id, view, maxHolding, timestamp);
      var after := EvaluateExit(book, id, view, maxHolding, price, timestamp).0;
      if action == REDUCE_POSITION {
        if after != book { SameQuantity(book, after, id, after.positions[id]); }
      } else {
        CloseReduces(book, id, price, code);
      }
    }
  }

  lemma {:induction false} KillSwitchRunNeverGrows(config: Config, book: Book, ops: seq<Operation>)
    requires book.killSwitch && SetKillSwitch(false) !in ops
    ensures OpenQuantity(Run(config, book, ops)) <= OpenQuantity(book)
    decreases |ops|
  {
    if ops != [] {
      KillSwitchNeverGrows(config, book, ops[0]);
      KillSwitchRunNeverGrows(config, Apply(config, book, ops[0]).0, ops[1..]);
    }
  }

  // -------------------------------------------------------------------- the money

  function NetOf(journal: Journal): real {
    if journal.finalResult.Some? then journal.finalResult.value.netPnl else 0.0
  }

  /** The net results of the closed journals, added up. */
  function NetTotal(journals: seq<Journal>): real {
    if journals == [] then 0.0 else NetTotal(journals[..|journals| - 1]) + NetOf(journals[|journals| - 1])
  }

  lemma {:induction false} NetTotalReplace(journals: seq<Journal>, i: nat, journal: Journal)
    requires i < |journals|
    ensures NetTotal(journals[i := journal]) == NetTotal(journals) + NetOf(journal) - NetOf(journals[i])
  {
    var last := |journals| - 1;
    if i < last {
      assert journals[i := journal][..last] == journals[..last][i := journal];
      NetTotalReplace(journals[..last], i, journal);
    } else {
      assert journals[i := journal][..last] == journals[..last];
    }
  }

  /** The balance is the initial balance and the net results of the closed trades, and nothing else. */
  ghost predicate Conserved(book: Book, initial: real) {
    && book.account.initialBalance == initial
    && book.account.balance == initial + book.account.realizedPnl
    && book.account.realizedPnl == NetTotal(book.journals)
  }

  lemma CloseConserved(config: Config, book: Book, id: nat, price: real, reason: string, initial: real)
    requires Sound(config, book) && Conserved(book, initial)
    ensures Conserved(Close(book, id, price, reason).0, initial)
  {
    if id in book.positions {
      var after := Close(book, id, price, reason).0;
      JournalIndexIs(book.journals, book.positions, book.nextId, id);
      NetTotalReplace(book.journals, id, after.journals[id]);
    }
  }

  lemma EnterConserved(
    config: Config, book: Book, request: Request, quote: Option<Quote>, conditions: Conditions, initial: real)
    requires Conserved(book, initial)
    ensures Conserved(Enter(config, book, request, quote, conditions).0, initial)
  {
    var journal := Journal(book.nextId, request.timestamp, [], None, None);
    assert (book.journals + [journal])[..|book.journals|] == book.journals;
  }

  lemma ExitConserved(
    config: Config, book: Book, id: nat, view: ExitView, maxHolding: int, price: real, timestamp: int, initial: real)
    requires Sound(config, book) && Conserved(book, initial)
    ensures Conserved(Apply(config, book, DoEvaluateExit(id, view, maxHolding, price, timestamp)).0, initial)
  {
    if id in book.positions {
      var (_, code) := DecisionOn(book, id, view, maxHolding, timestamp);
      CloseConserved(config, book, id, price, code, initial);
    }
  }

  lemma EnteringConserves(
    config: Config, book: Book, request: Request, quote: Option<Quote>, conditions: Conditions, initial: real)
    requires Conserved(book, initial)
    ensures Conserved(Apply(config, book, DoEnter(request, quote, conditions)).0, initial)
  {
    EnterConserved(config, book, request, quote, conditions, initial);
  }

  lemma MarkConserved(config: Config, book: Book, id: nat, price: real, timestamp: int, initial: real)
    requires Conserved(book, initial)
    ensures Conserved(Apply(config, book, DoMark(id, price, timestamp)).0, initial)
  {
  }

  lemma DcaConserved(
    config: Config, book: Book, id: nat, request: Request, quote: Option<Quote>, conditions: Conditions, initial: real)
    requires Conserved(book, initial)
    ensures Conserved(Apply(config, book, DoDca(id, request, quote, conditions)).0, initial)
  {
  }

  lemma ClosingConserves(config: Config, book: Book, id: nat, price: real, reason: string, initial: real)
    requires Sound(config, book) && Conserved(book, initial)
    ensures Conserved(Apply(config, book, DoClose(id, price, reason)).0, initial)
  {
    CloseConserved(config, book, id, price, reason, initial);
  }

  lemma ApplyConserved(config: Config, book: Book, op: Operation, initial: real)
    requires Sound(config, book) && Conserved(book, initial)
    ensures Conserved(Apply(config, book, op).0, initial)
  {
    match op
    case SetState(_) =>
    case SetKillSwitch(_) =>
    case DoEnter(request, quote, conditions) => EnteringConserves(config, book, request, quote, conditions, initial);
    case DoMark(id, price, timestamp) => MarkConserved(config, book, id, price, timestamp, initial);
    case DoDca(id, request, quote, conditions) => DcaConserved(config, book, id, request, quote, conditions, initial);
    case DoClose(id, price, reason) => ClosingConserves(config, book, id, price, reason, initial);
    case DoEvaluateExit(id, view, maxHolding, price, timestamp) =>
      ExitConserved(config, book, id, view, maxHolding, price, timestamp, initial);
  }

  /** Money is conserved over every run, however its requests are labelled. */
  lemma {:induction false} RunConserved(config: Config, book: Book, ops: seq<Operation>, initial: real)
    requires Sound(config, book) && Conserved(book, initial)
    ensures Conserved(Run(config, book, ops), initial)
    decreases |ops|
  {
    if ops != [] {
      ApplySound(config, book, ops[0]);
      ApplyConserved(config, book, ops[0], initial);
      RunConserved(config, Apply(config, book, ops[0]).0, ops[1..], initial);
    }
  }
}
