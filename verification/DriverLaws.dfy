/** What holds over every run of the observation driver (observation/driver.py). */
module DriverLaws {
  import opened Prelude
  import opened Scheduling
  import opened Lifecycle
  import opened Ingestion
  import opened DriverModel
  import ForwardOutcome

  function Run(c: Config, w: World, ticks: seq<TickAnswers>): World
    requires AllFit(c, ticks)
    decreases |ticks|
  {
    if ticks == [] then w else Run(c, Tick(c, w, ticks[0]), ticks[1..])
  }

  /** Several processes, one after the other: a restart forgets everything but the repositories. */
  datatype ProcessEvent = OneTick(t: TickAnswers) | Restart(loaded: set<CycleId>)

  predicate EventFits(c: Config, e: ProcessEvent) { e.OneTick? ==> Fits(c, e.t) }

  function Restarted(w: World): World {
    w.(seen := {}, stats := NO_STATS, state := DriverState.STOPPED, stopping := false,
       ingestor := if w.ingestor.Some? then Some(w.ingestor.value.(seen := {})) else None)
  }

  function Happen(c: Config, w: World, e: ProcessEvent): World
    requires EventFits(c, e)
  {
    match e
    case OneTick(t) => Tick(c, w, t)
    case Restart(loaded) => Started(c, Restarted(w), loaded)
  }

  function History(c: Config, w: World, events: seq<ProcessEvent>): World
    requires forall i | 0 <= i < |events| :: EventFits(c, events[i])
    decreases |events|
  {
    if events == [] then w else History(c, Happen(c, w, events[0]), events[1..])
  }

  // ------------------------------------------------------ resolving changes little

  /** Nothing about the cycles has changed. */
  predicate SameReports(v: World, w: World) {
    v.seen == w.seen && v.history == w.history && v.stats.ticks == w.stats.ticks && v.stats.executed == w.stats.executed
    && v.stats.duplicate == w.stats.duplicate && v.stats.failed == w.stats.failed
    && v.stats.consecutiveErrors == w.stats.consecutiveErrors && v.stats.lastSuccessAt == w.stats.lastSuccessAt
    && v.store.Keys >= w.store.Keys
  }

  /** What resolving leaves alone. */
  predicate SameCycles(v: World, w: World) { SameReports(v, w) && v.state == w.state && v.stopping == w.stopping }

  lemma SaveSameCycles(c: Config, w: World, o: Observation, saves: bool)
    ensures SameCycles(Save(c, w, o, saves), w)
  {
  }

  lemma FailSameCycles(c: Config, w: World, o: Observation, target: Status, reason: Reason, moment: int, saves: bool)
    ensures SameCycles(FailWith(c, w, o, target, reason, moment, saves), w)
  {
    var r := Fail(o, target, reason, moment);
    if r.Ok? { SaveSameCycles(c, w, r.value, saves); }
  }

  lemma AdvanceSameCycles(c: Config, w: World, o: Observation, target: Status, moment: int, saves: bool)
    ensures SameCycles(AdvanceTo(c, w, o, target, moment, saves), w)
  {
    var r := Advance(o, target, None, moment);
    if r.Ok? { SaveSameCycles(c, w, r.value, saves); }
  }

  lemma DatasetSameCycles(c: Config, w: World, o: Observation, a: DueAnswers, moment: int)
    ensures SameCycles(HandToDataset(c, w, o, a, moment), w)
  {
    if a.mark.Some? && w.ingestor.Some? {
      var after := w.(ingestor := Some(Ingest(w.ingestor.value, o, a.mark, a.dataset).0));
      AdvanceSameCycles(c, after, o, DATASET_READY, moment, a.savesReady);
    }
  }

  lemma SettleSameCycles(c: Config, w: World, o: Observation, a: DueAnswers, moment: int)
    ensures SameCycles(Settle(c, w, o, a, moment), w)
  {
    if Advance(o, HORIZON_REACHED, None, moment).Err? {
      FailSameCycles(c, w, o, CALCULATION_ERROR, CalculationError, moment, a.saves);
    } else {
      var record := Calculated(o, a.mark, moment);
      var saved := Save(c, Tallied(w, a.mark.Some?), record, a.saves);
      SaveSameCycles(c, Tallied(w, a.mark.Some?), record, a.saves);
      DatasetSameCycles(c, saved, record, a, moment);
    }
  }

  lemma ResolveOneSameCycles(c: Config, w: World, o: Observation, a: DueAnswers, moment: int)
    ensures SameCycles(ResolveOne(c, w, o, a, moment), w)
  {
    if HorizonReached(o, moment) {
      if a.crashes {
        FailSameCycles(c, w, o, CALCULATION_ERROR, CalculationError, moment, a.saves);
      } else {
        match ForwardOutcome.Resolve(c.costs, o.subject, a.candles, moment)
        case Err(NOT_DIRECTIONAL) => AdvanceSameCycles(c, w, o, HORIZON_REACHED, moment, a.saves);
        case Err(NO_FUTURE_DATA) => FailSameCycles(c, w, o, TIMEOUT, NoFutureData, moment, a.saves);
        case Err(_) =>
        case Ok(_) => SettleSameCycles(c, w, o, a, moment);
      }
    }
  }

  /** The world once the first n loaded observations are resolved. */
  function AfterResolving(
    c: Config, w: World, loaded: map<CycleId, Observation>, pending: seq<DueAnswers>, n: nat, moment: int): World
    requires n <= |pending| && AllStored(loaded, pending)
  {
    ResolveFirst(c, w, loaded, pending, n, moment)
  }

  lemma SameCyclesTransitive(u: World, v: World, w: World)
    requires SameCycles(u, v) && SameCycles(v, w)
    ensures SameCycles(u, w)
  {
  }

  lemma OneMoreSameCycles(
    c: Config, w: World, loaded: map<CycleId, Observation>, pending: seq<DueAnswers>, n: nat, moment: int)
    requires 0 < n <= |pending| && AllStored(loaded, pending)
    requires SameCycles(AfterResolving(c, w, loaded, pending, n - 1, moment), w)
    ensures SameCycles(AfterResolving(c, w, loaded, pending, n, moment), w)
  {
    var mid := ResolveFirst(c, w, loaded, pending, n - 1, moment);
    var o, a := loaded[pending[n - 1].id], pending[n - 1];
    ResolveOneSameCycles(c, mid, o, a, moment);
    SameCyclesTransitive(ResolveOne(c, mid, o, a, moment), mid, w);
  }

  lemma {:induction false} ResolveFirstSameCycles(
    c: Config, w: World, loaded: map<CycleId, Observation>, pending: seq<DueAnswers>, n: nat, moment: int)
    requires n <= |pending| && AllStored(loaded, pending)
    ensures SameCycles(AfterResolving(c, w, loaded, pending, n, moment), w)
  {
    if n > 0 {
      ResolveFirstSameCycles(c, w, loaded, pending, n - 1, moment);
      OneMoreSameCycles(c, w, loaded, pending, n, moment);
    }
  }

  lemma ResolveDueSameCycles(c: Config, w: World, t: TickAnswers)
    ensures SameCycles(ResolveDue(c, w, t), w)
  {
    if c.hasRepository && !t.dueFails {
      var pending := Due(w.store, t.due, t.moment, c.resolveBatch);
      DueAreStored(w.store, t.due, t.moment, c.resolveBatch);
      ResolveFirstSameCycles(c, w, w.store, pending, |pending|, t.moment);
    }
  }

  /** The world once the first n symbols have been visited. */
  function AfterSymbols(c: Config, w: World, n: nat, t: TickAnswers): World
    requires Fits(c, t) && n <= |c.symbols|
  {
    RunSymbols(c, w, n, t)
  }

  /** The n-th symbol of a tick. */
  function NextSymbol(c: Config, w: World, n: nat, t: TickAnswers): World
    requires Fits(c, t) && n < |c.symbols|
  {
    RunSymbol(c, w, c.symbols[n], CandleTimestamp(t.moment, c.intervalSeconds), t.moment, t.symbols[n])
  }

  lemma OneMoreSymbol(c: Config, w: World, n: nat, t: TickAnswers)
    requires Fits(c, t) && n < |c.symbols|
    ensures AfterSymbols(c, w, n + 1, t) == NextSymbol(c, AfterSymbols(c, w, n, t), n, t)
  {
  }

  /** A tick, seen from its cycles: only the symbols matter. */
  lemma TickSameCycles(c: Config, w: World, t: TickAnswers)
    requires Fits(c, t)
    ensures SameReports(Tick(c, w, t), AfterSymbols(c, Begun(w), |c.symbols|, t))
  {
    ResolveDueSameCycles(c, RunSymbols(c, Begun(w), |c.symbols|, t), t);
  }

  // ------------------------------------------------------------ at most one cycle

  /** How many reports say that the cycle ran. */
  function Executions(history: seq<Report>, id: CycleId): nat {
    if history == [] then 0
    else
      var last := history[|history| - 1];
      Executions(history[..|history| - 1], id) + if Ran(last.outcome) && last.id == id then 1 else 0
  }

  lemma ExecutionsNote(history: seq<Report>, report: Report, id: CycleId)
    ensures Executions(history + [report], id)
         == Executions(history, id) + if Ran(report.outcome) && report.id == id then 1 else 0
  {
    assert (history + [report])[..|history|] == history;
  }

  predicate SeenOnce(w: World, id: CycleId) { Executions(w.history, id) <= if id in w.seen then 1 else 0 }

  lemma SymbolSeenOnce(c: Config, w: World, n: nat, t: TickAnswers, id: CycleId)
    requires Fits(c, t) && n < |c.symbols| && SeenOnce(w, id)
    ensures SeenOnce(NextSymbol(c, w, n, t), id)
  {
    ExecutionsNote(w.history, NextSymbol(c, w, n, t).history[|w.history|], id);
  }

  lemma {:induction false} SymbolsSeenOnce(c: Config, w: World, n: nat, t: TickAnswers, id: CycleId)
    requires Fits(c, t) && n <= |c.symbols| && SeenOnce(w, id)
    ensures SeenOnce(AfterSymbols(c, w, n, t), id)
  {
    if n > 0 {
      SymbolsSeenOnce(c, w, n - 1, t, id);
      OneMoreSeenOnce(c, w, n - 1, t, id);
    }
  }

  lemma OneMoreSeenOnce(c: Config, w: World, n: nat, t: TickAnswers, id: CycleId)
    requires Fits(c, t) && n < |c.symbols| && SeenOnce(AfterSymbols(c, w, n, t), id)
    ensures SeenOnce(AfterSymbols(c, w, n + 1, t), id)
  {
    SymbolSeenOnce(c, AfterSymbols(c, w, n, t), n, t, id);
    OneMoreSymbol(c, w, n, t);
  }

  /** In one process a cycle is executed or halted at most once, whatever fails. */
  lemma {:induction false} OncePerProcess(c: Config, w: World, ticks: seq<TickAnswers>, id: CycleId)
    requires AllFit(c, ticks) && SeenOnce(w, id)
    ensures SeenOnce(Run(c, w, ticks), id) && Executions(Run(c, w, ticks).history, id) <= 1
    decreases |ticks|
  {
    if ticks != [] {
      SymbolsSeenOnce(c, Begun(w), |c.symbols|, ticks[0], id);
      TickSameCycles(c, w, ticks[0]);
      OncePerProcess(c, Tick(c, w, ticks[0]), ticks[1..], id);
    }
  }

  /** The repository answers every lookup and keeps every observation of a cycle. */
  ghost predicate Reliable(t: TickAnswers) {
    forall i | 0 <= i < |t.symbols| :: !t.symbols[i].lookupFails && t.symbols[i].saves
  }

  predicate StoredOnce(w: World, id: CycleId) {
    w.seen <= w.store.Keys && Executions(w.history, id) <= if id in w.store then 1 else 0
  }

  lemma SymbolStoredOnce(c: Config, w: World, n: nat, t: TickAnswers, id: CycleId)
    requires Fits(c, t) && n < |c.symbols| && StoredOnce(w, id) && c.hasRepository && Reliable(t)
    ensures StoredOnce(NextSymbol(c, w, n, t), id)
  {
    assert !t.symbols[n].lookupFails && t.symbols[n].saves;
    ExecutionsNote(w.history, NextSymbol(c, w, n, t).history[|w.history|], id);
  }

  lemma {:induction false} SymbolsStoredOnce(c: Config, w: World, n: nat, t: TickAnswers, id: CycleId)
    requires Fits(c, t) && n <= |c.symbols| && StoredOnce(w, id) && c.hasRepository && Reliable(t)
    ensures StoredOnce(AfterSymbols(c, w, n, t), id)
  {
    if n > 0 {
      SymbolsStoredOnce(c, w, n - 1, t, id);
      OneMoreStoredOnce(c, w, n - 1, t, id);
    }
  }

  lemma OneMoreStoredOnce(c: Config, w: World, n: nat, t: TickAnswers, id: CycleId)
    requires Fits(c, t) && n < |c.symbols| && StoredOnce(AfterSymbols(c, w, n, t), id) && c.hasRepository && Reliable(t)
    ensures StoredOnce(AfterSymbols(c, w, n + 1, t), id)
  {
    SymbolStoredOnce(c, AfterSymbols(c, w, n, t), n, t, id);
    OneMoreSymbol(c, w, n, t);
  }

  /** Across restarts too, as long as the repository answers and keeps what it is given. */
  lemma {:induction false} OnceAcrossRestarts(c: Config, w: World, events: seq<ProcessEvent>, id: CycleId)
    requires forall i | 0 <= i < |events| :: EventFits(c, events[i])
    requires forall i | 0 <= i < |events| && events[i].OneTick? :: Reliable(events[i].t)
    requires c.hasRepository && StoredOnce(w, id)
    ensures Executions(History(c, w, events).history, id) <= 1
    decreases |events|
  {
    if events != [] {
      if events[0].OneTick? {
        SymbolsStoredOnce(c, Begun(w), |c.symbols|, events[0].t, id);
        TickSameCycles(c, w, events[0].t);
      }
      OnceAcrossRestarts(c, Happen(c, w, events[0]), events[1..], id);
    }
  }

  /** On any state: a symbol's cycle runs exactly when it does not raise and its id is found nowhere. */
  lemma CycleRunsIff(c: Config, w: World, symbol: string, candle: int, moment: int, a: SymbolAnswers)
    ensures var id, after := CycleIdOf(symbol, c.timeframe, candle), RunSymbol(c, w, symbol, candle, moment, a);
      Executions(after.history, id) == Executions(w.history, id) + 1
      <==> a.run.CycleRan? && id !in w.seen && (!c.hasRepository || a.lookupFails || id !in w.store)
  {
    var id, after := CycleIdOf(symbol, c.timeframe, candle), RunSymbol(c, w, symbol, candle, moment, a);
    ExecutionsNote(w.history, after.history[|w.history|], id);
  }

  /** Nothing remembers the cycle: no repository, a lost save, or ids not reloaded and a lookup that fails. */
  predicate Forgotten(
    c: Config, w: World, id: CycleId, first: SymbolAnswers, loaded: set<CycleId>, second: SymbolAnswers)
  {
    !c.hasRepository || (!first.saves && id !in w.store) || (id !in loaded && second.lookupFails)
  }

  /** A cycle that ran is run again after a restart exactly when it does not raise and nothing remembers it. */
  lemma RunsAgainAfterRestartIff(
    c: Config, w: World, symbol: string, candle: int, moment: int, first: SymbolAnswers,
    loaded: set<CycleId>, later: int, second: SymbolAnswers)
    requires Ran(OutcomeOf(c, w, CycleIdOf(symbol, c.timeframe, candle), first))
    ensures var id := CycleIdOf(symbol, c.timeframe, candle);
      var restarted := Started(c, Restarted(RunSymbol(c, w, symbol, candle, moment, first)), loaded);
      var last := RunSymbol(c, restarted, symbol, candle, later, second);
      Executions(last.history, id) == Executions(w.history, id) + 2
      <==> second.run.CycleRan? && Forgotten(c, w, id, first, loaded, second)
  {
    var ran := RunSymbol(c, w, symbol, candle, moment, first);
    CycleRunsIff(c, w, symbol, candle, moment, first);
    CycleRunsIff(c, Started(c, Restarted(ran), loaded), symbol, candle, later, second);
    var last := RunSymbol(c, Started(c, Restarted(ran), loaded), symbol, candle, later, second);
    ExecutionsNote(ran.history, last.history[|ran.history|], CycleIdOf(symbol, c.timeframe, candle));
  }

  // ----------------------------------------------------------------- the counters

  function CountOf(history: seq<Report>, outcome: TickOutcome): nat {
    if history == [] then 0
    else
      CountOf(history[..|history| - 1], outcome) + if history[|history| - 1].outcome == outcome then 1 else 0
  }

  /** The failures since the last success; halted and duplicate cycles are neutral. */
  function Streak(history: seq<Report>): nat {
    if history == [] then 0
    else match history[|history| - 1].outcome
      case EXECUTED => 0
      case FAILED => Streak(history[..|history| - 1]) + 1
      case _ => Streak(history[..|history| - 1])
  }

  /** When the last executed cycle was recorded. */
  function LastSuccess(history: seq<Report>): Option<int> {
    if history == [] then None
    else
      var last := history[|history| - 1];
      if last.outcome == EXECUTED && last.observation.Some? then Some(last.observation.value.updatedAt)
      else LastSuccess(history[..|history| - 1])
  }

  lemma CountNote(history: seq<Report>, report: Report, outcome: TickOutcome)
    ensures CountOf(history + [report], outcome)
         == CountOf(history, outcome) + if report.outcome == outcome then 1 else 0
  {
    assert (history + [report])[..|history|] == history;
  }

  lemma {:induction false} OutcomesCover(history: seq<Report>)
    ensures CountOf(history, EXECUTED) + CountOf(history, DUPLICATE) + CountOf(history, HALTED)
          + CountOf(history, TickOutcome.FAILED) == |history|
  {
    if history != [] { OutcomesCover(history[..|history| - 1]); }
  }

  /** The streak is the number of failures after the last success. */
  lemma {:induction false} StreakSince(history: seq<Report>, k: nat)
    requires k <= |history|
    requires k == 0 || history[k - 1].outcome == EXECUTED
    requires forall i | k <= i < |history| :: history[i].outcome != EXECUTED
    ensures Streak(history) == CountOf(history[k..], TickOutcome.FAILED)
  {
    if k < |history| {
      StreakSince(history[..|history| - 1], k);
      assert history[k..][..|history| - 1 - k] == history[..|history| - 1][k..];
    }
  }

  /** Every counter is a count of reports, and the last success is that of the last executed one. */
  predicate Counted(w: World) {
    && w.stats.executed == CountOf(w.history, EXECUTED)
    && w.stats.duplicate == CountOf(w.history, DUPLICATE)
    && w.stats.failed == CountOf(w.history, HALTED) + CountOf(w.history, TickOutcome.FAILED)
    && w.stats.consecutiveErrors == Streak(w.history)
    && w.stats.lastSuccessAt == LastSuccess(w.history)
  }

  lemma StreakNote(history: seq<Report>, report: Report)
    ensures Streak(history + [report]) ==
      if report.outcome == EXECUTED then 0 else Streak(history) + if report.outcome == TickOutcome.FAILED then 1 else 0
    ensures LastSuccess(history + [report]) ==
      if report.outcome == EXECUTED && report.observation.Some?
      then Some(report.observation.value.updatedAt) else LastSuccess(history)
  {
    assert (history + [report])[..|history|] == history;
  }

  /** n more reports, all counted. */
  predicate CountedSince(w: World, after: World, n: nat) {
    Counted(after) && |after.history| == |w.history| + n && after.stats.ticks == w.stats.ticks
  }

  lemma NoteCounted(w: World, after: World, report: Report, moment: int)
    requires Counted(w) && after.history == w.history + [report]
    requires after.stats == StatsAfter(w.stats, report.outcome, moment)
    requires report.outcome == EXECUTED ==> report.observation.Some? && report.observation.value.updatedAt == moment
    ensures CountedSince(w, after, 1)
  {
    CountNote(w.history, report, EXECUTED);
    CountNote(w.history, report, DUPLICATE);
    CountNote(w.history, report, HALTED);
    CountNote(w.history, report, TickOutcome.FAILED);
    StreakNote(w.history, report);
  }

  lemma SymbolCounted(c: Config, w: World, n: nat, t: TickAnswers)
    requires Fits(c, t) && n < |c.symbols| && Counted(w)
    ensures CountedSince(w, NextSymbol(c, w, n, t), 1)
  {
    var after := NextSymbol(c, w, n, t);
    NoteCounted(w, after, after.history[|w.history|], t.moment);
  }

  lemma CountedNext(w: World, mid: World, after: World, n: nat)
    requires CountedSince(w, mid, n) && CountedSince(mid, after, 1)
    ensures CountedSince(w, after, n + 1)
  {
  }

  /** The first n symbols of a tick are all counted. */
  predicate CountedUpTo(c: Config, w: World, n: nat, t: TickAnswers)
    requires Fits(c, t) && n <= |c.symbols|
  {
    CountedSince(w, AfterSymbols(c, w, n, t), n)
  }

  lemma OneMoreCounted(c: Config, w: World, n: nat, t: TickAnswers)
    requires Fits(c, t) && n < |c.symbols| && CountedUpTo(c, w, n, t)
    ensures CountedUpTo(c, w, n + 1, t)
  {
    SymbolCounted(c, AfterSymbols(c, w, n, t), n, t);
    OneMoreSymbol(c, w, n, t);
    CountedNext(w, AfterSymbols(c, w, n, t), AfterSymbols(c, w, n + 1, t), n);
  }

  lemma NoneCounted(c: Config, w: World, t: TickAnswers)
    requires Fits(c, t) && Counted(w)
    ensures CountedUpTo(c, w, 0, t)
  {
  }

  lemma {:induction false} SymbolsCounted(c: Config, w: World, n: nat, t: TickAnswers)
    requires Fits(c, t) && n <= |c.symbols| && Counted(w)
    ensures CountedUpTo(c, w, n, t)
  {
    if n == 0 {
      NoneCounted(c, w, t);
    } else {
      SymbolsCounted(c, w, n - 1, t);
      OneMoreCounted(c, w, n - 1, t);
    }
  }

  lemma SameReportsCounted(w: World, v: World)
    requires SameReports(v, w) && Counted(w)
    ensures Counted(v)
  {
  }

  lemma TickCounted(c: Config, w: World, t: TickAnswers)
    requires Fits(c, t) && Counted(w)
    ensures var after := Tick(c, w, t);
      Counted(after) && |after.history| == |w.history| + |c.symbols| && after.stats.ticks == w.stats.ticks + 1
  {
    SymbolsCounted(c, Begun(w), |c.symbols|, t);
    TickSameCycles(c, w, t);
    SameReportsCounted(AfterSymbols(c, Begun(w), |c.symbols|, t), Tick(c, w, t));
  }

  predicate AddsUp(c: Config, w: World) {
    w.stats.executed + w.stats.duplicate + w.stats.failed == w.stats.ticks * |c.symbols|
  }

  lemma AddsUpIff(c: Config, w: World)
    requires Counted(w)
    ensures AddsUp(c, w) <==> |w.history| == w.stats.ticks * |c.symbols|
  {
    OutcomesCover(w.history);
  }

  lemma NextMultiple(n: nat, k: nat)
    ensures (n + 1) * k == n * k + k
  {
  }

  /** Executed, duplicate and failed cycles add up to ticks times symbols, and errors are the current streak. */
  lemma {:induction false} CountersAddUp(c: Config, w: World, ticks: seq<TickAnswers>)
    requires AllFit(c, ticks) && Counted(w) && AddsUp(c, w)
    ensures Counted(Run(c, w, ticks)) && AddsUp(c, Run(c, w, ticks))
    decreases |ticks|
  {
    if ticks != [] {
      var next := Tick(c, w, ticks[0]);
      TickCounted(c, w, ticks[0]);
      AddsUpIff(c, w);
      AddsUpIff(c, next);
      NextMultiple(w.stats.ticks, |c.symbols|);
      CountersAddUp(c, next, ticks[1..]);
    }
  }

  // --------------------------------------------------------------- the run loop

  predicate ReachedLimit(c: Config, w: World) { w.stats.consecutiveErrors >= c.maxConsecutiveErrors }

  lemma RunOne(c: Config, w: World, ticks: seq<TickAnswers>, n: nat)
    requires AllFit(c, ticks) && 0 < n <= |ticks|
    ensures Run(c, w, ticks[..n]) == Run(c, Tick(c, w, ticks[0]), ticks[1..][..n - 1])
  {
    assert ticks[..n][1..] == ticks[1..][..n - 1];
  }

  ghost predicate KeptGoing(c: Config, w: World, ticks: seq<TickAnswers>, n: nat)
    requires AllFit(c, ticks) && n <= |ticks|
  {
    forall k | 0 < k < n :: !ReachedLimit(c, Run(c, w, ticks[..k])) && !Run(c, w, ticks[..k]).stopping
  }

  /** The state in which a loop of n ticks ends: broken exactly when its last tick reached the limit of errors. */
  predicate EndsAs(c: Config, w: World, ticks: seq<TickAnswers>, n: nat, end: World)
    requires AllFit(c, ticks) && n <= |ticks|
  {
    var last := Run(c, w, ticks[..n]);
    end == if n > 0 && ReachedLimit(c, last) then last.(state := DriverState.FAILED) else last
  }

  /** Why the loop stopped there and not later. */
  predicate Finished(c: Config, w: World, ticks: seq<TickAnswers>, n: nat)
    requires AllFit(c, ticks) && n <= |ticks|
  {
    var last := Run(c, w, ticks[..n]);
    n == |ticks| || last.stopping || (n > 0 && ReachedLimit(c, last))
  }

  lemma KeptGoingOn(c: Config, w: World, ticks: seq<TickAnswers>, m: nat)
    requires AllFit(c, ticks) && m < |ticks|
    requires !ReachedLimit(c, Tick(c, w, ticks[0])) && !Tick(c, w, ticks[0]).stopping
    requires KeptGoing(c, Tick(c, w, ticks[0]), ticks[1..], m)
    ensures KeptGoing(c, w, ticks, m + 1)
  {
    forall k | 0 < k < m + 1
      ensures !ReachedLimit(c, Run(c, w, ticks[..k])) && !Run(c, w, ticks[..k]).stopping
    {
      RunOne(c, w, ticks, k);
    }
  }

  lemma OneMoreTick(c: Config, w: World, ticks: seq<TickAnswers>, m: nat, end: World)
    requires AllFit(c, ticks) && m < |ticks|
    requires !ReachedLimit(c, Tick(c, w, ticks[0])) && !Tick(c, w, ticks[0]).stopping
    requires EndsAs(c, Tick(c, w, ticks[0]), ticks[1..], m, end) && Finished(c, Tick(c, w, ticks[0]), ticks[1..], m)
    ensures EndsAs(c, w, ticks, m + 1, end) && Finished(c, w, ticks, m + 1)
  {
    RunOne(c, w, ticks, m + 1);
  }

  lemma {:induction false} LoopRuns(c: Config, w: World, ticks: seq<TickAnswers>) returns (n: nat)
    requires AllFit(c, ticks)
    ensures n <= |ticks| && EndsAs(c, w, ticks, n, Loop(c, w, ticks)) && Finished(c, w, ticks, n)
      && KeptGoing(c, w, ticks, n)
    decreases |ticks|
  {
    if w.stopping || ticks == [] {
      n := 0;
      assert ticks[..0] == [];
    } else {
      var next := Tick(c, w, ticks[0]);
      if ReachedLimit(c, next) || next.stopping {
        RunOne(c, w, ticks, 1);
        n := 1;
      } else {
        var m := LoopRuns(c, next, ticks[1..]);
        KeptGoingOn(c, w, ticks, m);
        OneMoreTick(c, w, ticks, m, Loop(c, next, ticks[1..]));
        n := m + 1;
      }
    }
  }

  lemma {:induction false} RunKeepsState(c: Config, w: World, ticks: seq<TickAnswers>)
    requires AllFit(c, ticks) && w.state != DriverState.FAILED
    ensures Run(c, w, ticks).state != DriverState.FAILED
    decreases |ticks|
  {
    if ticks != [] {
      TickKeepsState(c, w, ticks[0]);
      RunKeepsState(c, Tick(c, w, ticks[0]), ticks[1..]);
    }
  }

  lemma {:induction false} SymbolsKeepState(c: Config, w: World, n: nat, t: TickAnswers)
    requires Fits(c, t) && n <= |c.symbols|
    ensures AfterSymbols(c, w, n, t).state == w.state
  {
    if n > 0 {
      SymbolsKeepState(c, w, n - 1, t);
      OneMoreSymbol(c, w, n - 1, t);
    }
  }

  lemma TickKeepsState(c: Config, w: World, t: TickAnswers)
    requires Fits(c, t) && w.state != DriverState.FAILED
    ensures Tick(c, w, t).state != DriverState.FAILED
  {
    SymbolsKeepState(c, Begun(w), |c.symbols|, t);
    ResolveDueSameCycles(c, AfterSymbols(c, Begun(w), |c.symbols|, t), t);
  }

  /**
   * `run_forever` ticks until it is stopped, has no ticks left, or a tick ends with too many
   * failures in a row; it ends FAILED exactly in the last case, and STOPPED otherwise.
   */
  lemma RunForeverEnds(c: Config, w: World, loaded: set<CycleId>, ticks: seq<TickAnswers>) returns (n: nat)
    requires AllFit(c, ticks)
    ensures n <= |ticks|
    ensures KeptGoing(c, Started(c, w, loaded), ticks, n) && Finished(c, Started(c, w, loaded), ticks, n)
    ensures var last := Run(c, Started(c, w, loaded), ticks[..n]);
      RunForever(c, w, loaded, ticks)
        == last.(state := if n > 0 && ReachedLimit(c, last) then DriverState.FAILED else DriverState.STOPPED)
  {
    n := LoopRuns(c, Started(c, w, loaded), ticks);
    RunKeepsState(c, Started(c, w, loaded), ticks[..n]);
  }
}
