/**
 * What one tick of the observation driver does (observation/driver.py). Everything outside the
 * driver is an answer: what a lookup, a cycle, a save, the outcome engine or the dataset did.
 */
module DriverModel {
  import opened Prelude
  import opened Timeframes
  import opened Scheduling
  import opened Lifecycle
  import opened Ingestion
  import ForwardOutcome

  datatype DriverState = STOPPED | RUNNING | DEGRADED | STOPPING | FAILED

  datatype TickOutcome = EXECUTED | DUPLICATE | HALTED | FAILED

  datatype Config = Config(
    intervalSeconds: int, symbols: seq<string>, timeframe: string, horizon: ForwardOutcome.Horizon,
    maxConsecutiveErrors: int, resolveBatch: nat, staleAfterCycles: int,
    costs: ForwardOutcome.CostRules, hasRepository: bool)

  datatype Stats = Stats(
    ticks: nat, executed: nat, duplicate: nat, failed: nat, resolved: nat, labelled: nat,
    consecutiveErrors: nat, lastCycleAt: Option<int>, lastSuccessAt: Option<int>)

  const NO_STATS: Stats := Stats(0, 0, 0, 0, 0, 0, 0, None, None)

  datatype Report = Report(id: CycleId, symbol: string, candle: int, outcome: TickOutcome,
                           observation: Option<Observation>)

  /** The driver, the observations its repository holds, its ingestor, and every report so far. */
  datatype World = World(
    seen: set<CycleId>, store: map<CycleId, Observation>, stats: Stats, state: DriverState,
    stopping: bool, ingestor: Option<Ingestor>, history: seq<Report>)

  // ------------------------------------------------------------------ answers

  datatype Draft = Draft(
    side: ForwardOutcome.Side, entryPrice: Option<real>, timestamp: int, spread: Option<real>,
    featureVersion: Option<string>)

  datatype CycleRun = CycleRaised | CycleRan(draft: Draft, halted: bool, reasons: seq<string>)

  datatype SymbolAnswers = SymbolAnswers(lookupFails: bool, run: CycleRun, saves: bool)

  /** For one due observation: the candles, whether the engine raises, the label, the saves and the dataset. */
  datatype DueAnswers = DueAnswers(
    id: CycleId, candles: seq<ForwardOutcome.Row>, crashes: bool, mark: Option<Label>,
    saves: bool, dataset: Answers, savesReady: bool)

  datatype TickAnswers = TickAnswers(
    moment: int, symbols: seq<SymbolAnswers>, dueFails: bool, due: seq<DueAnswers>, stops: bool)

  predicate Fits(c: Config, t: TickAnswers) { |t.symbols| == |c.symbols| }

  // ------------------------------------------------------------------- cycles

  /** `already_executed`: memory first, then the repository; a lookup that fails counts as unknown. */
  predicate Known(c: Config, w: World, id: CycleId, lookupFails: bool) {
    id in w.seen || (c.hasRepository && !lookupFails && id in w.store)
  }

  /** `observation_from_cycle`. */
  function Created(c: Config, id: CycleId, draft: Draft, moment: int): Observation {
    Observation(
      id, ForwardOutcome.Subject(draft.side, draft.entryPrice, c.horizon, draft.timestamp, draft.spread),
      draft.featureVersion, CREATED, None, moment)
  }

  /** What a cycle that ran leaves behind: an observation under way, or one closed for invalid data. */
  function RecordOf(c: Config, id: CycleId, run: CycleRun, moment: int): Observation
    requires run.CycleRan?
  {
    var created := Created(c, id, run.draft, moment);
    if run.halted then created.(status := DATA_INVALID, failureReason := Some(Halted(run.reasons)))
    else created.(status := OBSERVING)
  }

  function OutcomeOf(c: Config, w: World, id: CycleId, a: SymbolAnswers): TickOutcome {
    if Known(c, w, id, a.lookupFails) then DUPLICATE
    else if a.run.CycleRaised? then TickOutcome.FAILED
    else if a.run.halted then HALTED
    else EXECUTED
  }

  predicate Ran(outcome: TickOutcome) { outcome == EXECUTED || outcome == HALTED }

  /** A halted cycle counts as failed, but it is a market condition and not an error of the driver. */
  function StatsAfter(stats: Stats, outcome: TickOutcome, moment: int): Stats {
    match outcome
    case DUPLICATE => stats.(duplicate := stats.duplicate + 1)
    case FAILED => stats.(failed := stats.failed + 1, consecutiveErrors := stats.consecutiveErrors + 1)
    case HALTED => stats.(failed := stats.failed + 1)
    case EXECUTED => stats.(executed := stats.executed + 1, consecutiveErrors := 0, lastSuccessAt := Some(moment))
  }

  /** `_persist`: a save that raises is logged and forgotten. */
  function Persist(
    c: Config, store: map<CycleId, Observation>, o: Observation, saves: bool): map<CycleId, Observation>
  {
    if c.hasRepository && saves then store[o.cycle := o] else store
  }

  /** One symbol: only a cycle that raises may be tried again. */
  function RunSymbol(c: Config, w: World, symbol: string, candle: int, moment: int, a: SymbolAnswers): World {
    var id := CycleIdOf(symbol, c.timeframe, candle);
    var outcome := OutcomeOf(c, w, id, a);
    var record := if Ran(outcome) then Some(RecordOf(c, id, a.run, moment)) else None;
    World(
      if outcome == TickOutcome.FAILED then w.seen else w.seen + {id},
      if record.Some? then Persist(c, w.store, record.value, a.saves) else w.store,
      StatsAfter(w.stats, outcome, moment),
      w.state, w.stopping, w.ingestor,
      w.history + [Report(id, symbol, candle, outcome, record)])
  }

  /** The first n symbols of a tick. */
  function RunSymbols(c: Config, w: World, n: nat, t: TickAnswers): World
    requires Fits(c, t) && n <= |c.symbols|
  {
    if n == 0 then w
    else RunSymbol(c, RunSymbols(c, w, n - 1, t), c.symbols[n - 1], CandleTimestamp(t.moment, c.intervalSeconds),
                   t.moment, t.symbols[n - 1])
  }

  // ---------------------------------------------------------------- resolving

  predicate IsDue(store: map<CycleId, Observation>, id: CycleId, moment: int) {
    id in store && store[id].status == OBSERVING && HorizonReached(store[id], moment)
  }

  predicate Listed(rows: seq<DueAnswers>, id: CycleId) { exists i | 0 <= i < |rows| :: rows[i].id == id }

  /**
   * `observations_due`, in any order the repository may choose: of the proposed rows, those saved
   * as OBSERVING whose deadline has passed, each once, and no more than the limit.
   */
  function Due(store: map<CycleId, Observation>, proposed: seq<DueAnswers>, moment: int, limit: nat): seq<DueAnswers> {
    if proposed == [] then []
    else
      var last, rest := proposed[|proposed| - 1], Due(store, proposed[..|proposed| - 1], moment, limit);
      if |rest| < limit && IsDue(store, last.id, moment) && !Listed(rest, last.id) then rest + [last] else rest
  }

  function Save(c: Config, w: World, o: Observation, saves: bool): World { w.(store := Persist(c, w.store, o, saves)) }

  function FailWith(
    c: Config, w: World, o: Observation, target: Status, reason: Reason, moment: int, saves: bool): World
  {
    match Fail(o, target, reason, moment)
    case Ok(failed) => Save(c, w, failed, saves)
    case Err(_) => w
  }

  function AdvanceTo(c: Config, w: World, o: Observation, target: Status, moment: int, saves: bool): World {
    match Advance(o, target, None, moment)
    case Ok(next) => Save(c, w, next, saves)
    case Err(_) => w
  }

  /** More than the grace of a few intervals has passed since the deadline. */
  predicate TimedOut(c: Config, o: Observation, moment: int) {
    var deadline := ForwardOutcome.Deadline(o.subject);
    deadline.Some? && moment > deadline.value + SECOND * (c.intervalSeconds * MaxInt(c.staleAfterCycles, 1))
  }

  /** The record of a resolved observation, labelled or not. */
  function Calculated(o: Observation, mark: Option<Label>, moment: int): Observation {
    o.(status := if mark.Some? then LABELED else OUTCOME_CALCULATED, failureReason := None, updatedAt := moment)
  }

  function Tallied(w: World, labelled: bool): World {
    w.(stats := w.stats.(resolved := w.stats.resolved + 1, labelled := w.stats.labelled + if labelled then 1 else 0))
  }

  /** The result of the dataset is dropped: only an exception keeps the observation at LABELED. */
  function HandToDataset(c: Config, w: World, o: Observation, a: DueAnswers, moment: int): World {
    if a.mark.None? || w.ingestor.None? then w
    else
      var (g, result) := Ingest(w.ingestor.value, o, a.mark, a.dataset);
      var after := w.(ingestor := Some(g));
      if result.Raised? then after else AdvanceTo(c, after, o, DATASET_READY, moment, a.savesReady)
  }

  function Settle(c: Config, w: World, o: Observation, a: DueAnswers, moment: int): World {
    if Advance(o, HORIZON_REACHED, None, moment).Err? then
      FailWith(c, w, o, CALCULATION_ERROR, CalculationError, moment, a.saves)
    else
      var record := Calculated(o, a.mark, moment);
      HandToDataset(c, Save(c, Tallied(w, a.mark.Some?), record, a.saves), record, a, moment)
  }

  /** `_resolve_one`, with the handler of the exceptions it may raise. */
  function ResolveOne(c: Config, w: World, o: Observation, a: DueAnswers, moment: int): World {
    if !HorizonReached(o, moment) then w
    else if a.crashes then FailWith(c, w, o, CALCULATION_ERROR, CalculationError, moment, a.saves)
    else match ForwardOutcome.Resolve(c.costs, o.subject, a.candles, moment)
      case Err(NOT_DIRECTIONAL) => AdvanceTo(c, w, o, HORIZON_REACHED, moment, a.saves)
      case Err(NO_FUTURE_DATA) =>
        if TimedOut(c, o, moment) then FailWith(c, w, o, TIMEOUT, NoFutureData, moment, a.saves) else w
      case Err(_) => w
      case Ok(_) => Settle(c, w, o, a, moment)
  }

  ghost predicate AllStored(store: map<CycleId, Observation>, rows: seq<DueAnswers>) {
    forall i | 0 <= i < |rows| :: rows[i].id in store
  }

  /** The first n of the observations loaded as due. */
  function ResolveFirst(
    c: Config, w: World, loaded: map<CycleId, Observation>, pending: seq<DueAnswers>, n: nat, moment: int): World
    requires n <= |pending| && AllStored(loaded, pending)
  {
    if n == 0 then w
    else ResolveOne(c, ResolveFirst(c, w, loaded, pending, n - 1, moment), loaded[pending[n - 1].id], pending[n - 1],
                    moment)
  }

  lemma {:induction false} DueAreDue(
    store: map<CycleId, Observation>, proposed: seq<DueAnswers>, moment: int, limit: nat)
    ensures |Due(store, proposed, moment, limit)| <= limit
    ensures forall row | row in Due(store, proposed, moment, limit) :: IsDue(store, row.id, moment)
  {
    if proposed != [] { DueAreDue(store, proposed[..|proposed| - 1], moment, limit); }
  }

  lemma DueAreStored(store: map<CycleId, Observation>, proposed: seq<DueAnswers>, moment: int, limit: nat)
    ensures AllStored(store, Due(store, proposed, moment, limit))
  {
    DueAreDue(store, proposed, moment, limit);
    var due := Due(store, proposed, moment, limit);
    forall i | 0 <= i < |due| ensures due[i].id in store { assert due[i] in due; }
  }

  function ResolveDue(c: Config, w: World, t: TickAnswers): World {
    if !c.hasRepository || t.dueFails then w
    else
      var pending := Due(w.store, t.due, t.moment, c.resolveBatch);
      DueAreStored(w.store, t.due, t.moment, c.resolveBatch);
      ResolveFirst(c, w, w.store, pending, |pending|, t.moment)
  }

  // --------------------------------------------------------------------- ticks

  /** `stop`, which may come at any time during a tick. */
  function Stopped(w: World, stops: bool): World {
    if stops then w.(stopping := true, state := STOPPING) else w
  }

  function UpdateState(w: World): World {
    if w.state == DriverState.FAILED || w.stopping then w
    else w.(state := if w.stats.consecutiveErrors != 0 then DEGRADED else RUNNING)
  }

  function Begun(w: World): World { w.(stats := w.stats.(ticks := w.stats.ticks + 1)) }

  function Ended(w: World, t: TickAnswers): World {
    UpdateState(Stopped(w.(stats := w.stats.(lastCycleAt := Some(t.moment))), t.stops))
  }

  /** `run_once`. */
  function Tick(c: Config, w: World, t: TickAnswers): World
    requires Fits(c, t)
  {
    Ended(ResolveDue(c, RunSymbols(c, Begun(w), |c.symbols|, t), t), t)
  }

  /** `start`, with the cycle ids that `resume` managed to load. */
  function Started(c: Config, w: World, loaded: set<CycleId>): World {
    w.(stopping := false, state := RUNNING, seen := if c.hasRepository then w.seen + loaded * w.store.Keys else w.seen)
  }

  ghost predicate AllFit(c: Config, ticks: seq<TickAnswers>) { forall i | 0 <= i < |ticks| :: Fits(c, ticks[i]) }

  /** The loop of `run_forever`. */
  function Loop(c: Config, w: World, ticks: seq<TickAnswers>): World
    requires AllFit(c, ticks)
    decreases |ticks|
  {
    if w.stopping || ticks == [] then w
    else
      var next := Tick(c, w, ticks[0]);
      if next.stats.consecutiveErrors >= c.maxConsecutiveErrors then next.(state := DriverState.FAILED)
      else if next.stopping then next
      else Loop(c, next, ticks[1..])
  }

  /** `run_forever`, given at most as many ticks as there are answers. */
  function RunForever(c: Config, w: World, loaded: set<CycleId>, ticks: seq<TickAnswers>): World
    requires AllFit(c, ticks)
  {
    var done := Loop(c, Started(c, w, loaded), ticks);
    if done.state == DriverState.FAILED then done else done.(state := DriverState.STOPPED)
  }
}
