/** The observation driver itself, proved against DriverModel (observation/driver.py:198-526). */
module Driver {
  import opened Prelude
  import opened Scheduling
  import opened Lifecycle
  import opened Ingestion
  import opened DriverModel
  import DriverLaws
  import ForwardOutcome

  lemma StepForward(status: Status, next: Status)
    requires next !in FAILURE_STATES && Rank(next) == Rank(status) + 1
    ensures next in AllowedTransitions(status)
  {
    assert HAPPY_PATH[Rank(next)] == next;
  }

  /** The happy path up to OBSERVING, one allowed step at a time. */
  method Walk(created: Observation, moment: int) returns (o: Observation)
    requires created.status == CREATED && created.failureReason == None && created.updatedAt == moment
    ensures o == created.(status := OBSERVING)
  {
    var path := [FEATURES_CAPTURED, NN_PREDICTED, STRATEGY_EVALUATED, RISK_EVALUATED, OBSERVING];
    o := created;
    for i := 0 to |path|
      invariant o == created.(status := HAPPY_PATH[i])
    {
      assert path[i] == HAPPY_PATH[i + 1];
      StepForward(o.status, path[i]);
      o := Advance(o, path[i], None, moment).value;
    }
  }

  /** From OBSERVING over HORIZON_REACHED to the calculated or labelled record; None for a refused transition. */
  method Calculate(o: Observation, mark: Option<Label>, moment: int) returns (record: Option<Observation>)
    ensures record == if Advance(o, HORIZON_REACHED, None, moment).Err? then None else Some(Calculated(o, mark, moment))
  {
    var reached := Advance(o, HORIZON_REACHED, None, moment);
    if reached.Err? { return None; }
    StepForward(HORIZON_REACHED, OUTCOME_CALCULATED);
    var calculated := Advance(reached.value, OUTCOME_CALCULATED, None, moment).value;
    if mark.None? { return Some(calculated); }
    StepForward(OUTCOME_CALCULATED, LABELED);
    return Some(Advance(calculated, LABELED, None, moment).value);
  }

  class ObservationDriver {
    const config: Config
    const ingestor: DatasetIngestor?
    var seenCycles: set<CycleId>
    var store: map<CycleId, Observation>
    var stats: Stats
    var state: DriverState
    var stopping: bool
    ghost var history: seq<Report>

    constructor (config: Config, ingestor: DatasetIngestor?, store: map<CycleId, Observation>)
      ensures this.config == config && this.ingestor == ingestor
      ensures Contents() == World({}, store, NO_STATS, DriverState.STOPPED, false,
                                  if ingestor == null then None else Some(ingestor.Contents()), [])
    {
      this.config, this.ingestor, this.store := config, ingestor, store;
      seenCycles, stats, state, stopping, history := {}, NO_STATS, DriverState.STOPPED, false, [];
    }

    ghost function Contents(): World
      reads this, ingestor
    {
      World(seenCycles, store, stats, state, stopping,
            if ingestor == null then None else Some(ingestor.Contents()), history)
    }

    // ------------------------------------------------------------------ cycles

    method AlreadyExecuted(id: CycleId, lookupFails: bool) returns (known: bool)
      modifies this`seenCycles
      ensures known == Known(config, old(Contents()), id, lookupFails)
      ensures Contents() == old(Contents()).(seen := if known then old(seenCycles) + {id} else old(seenCycles))
    {
      if id in seenCycles {
        assert seenCycles + {id} == seenCycles;
        return true;
      }
      if !config.hasRepository || lookupFails { return false; }
      known := id in store;
      if known { seenCycles := seenCycles + {id}; }
    }

    method PersistObservation(o: Observation, saves: bool)
      modifies this`store
      ensures Contents() == Save(config, old(Contents()), o, saves)
    {
      if config.hasRepository && saves { store := store[o.cycle := o]; }
    }

    method Record(id: CycleId, run: CycleRun, moment: int, saves: bool) returns (o: Observation)
      requires run.CycleRan? && !run.halted
      modifies this`store
      ensures o == RecordOf(config, id, run, moment) && Contents() == Save(config, old(Contents()), o, saves)
    {
      o := Walk(Created(config, id, run.draft, moment), moment);
      PersistObservation(o, saves);
    }

    method RecordHalted(id: CycleId, run: CycleRun, moment: int, saves: bool) returns (o: Observation)
      requires run.CycleRan? && run.halted
      modifies this`store
      ensures o == RecordOf(config, id, run, moment) && Contents() == Save(config, old(Contents()), o, saves)
    {
      o := Fail(Created(config, id, run.draft, moment), DATA_INVALID, Halted(run.reasons), moment).value;
      PersistObservation(o, saves);
    }

    /** `_run_symbol`, for a cycle that is not known. */
    method RunCycle(symbol: string, id: CycleId, candle: int, moment: int, a: SymbolAnswers) returns (report: Report)
      requires id == CycleIdOf(symbol, config.timeframe, candle) && !Known(config, Contents(), id, a.lookupFails)
      modifies this`seenCycles, this`store, this`stats
      ensures Contents().(history := old(history) + [report])
           == RunSymbol(config, old(Contents()), symbol, candle, moment, a)
      ensures report.outcome == OutcomeOf(config, old(Contents()), id, a)
    {
      if a.run.CycleRaised? {
        stats := stats.(failed := stats.failed + 1, consecutiveErrors := stats.consecutiveErrors + 1);
        return Report(id, symbol, candle, TickOutcome.FAILED, None);
      }
      seenCycles := seenCycles + {id};
      if a.run.halted {
        stats := stats.(failed := stats.failed + 1);
        var o := RecordHalted(id, a.run, moment, a.saves);
        return Report(id, symbol, candle, HALTED, Some(o));
      }
      var o := Record(id, a.run, moment, a.saves);
      stats := stats.(executed := stats.executed + 1);
      stats := stats.(consecutiveErrors := 0, lastSuccessAt := Some(moment));
      return Report(id, symbol, candle, EXECUTED, Some(o));
    }

    /** The body of the loop over the symbols. */
    method VisitSymbol(symbol: string, candle: int, moment: int, a: SymbolAnswers) returns (report: Report)
      modifies this`seenCycles, this`store, this`stats, this`history
      ensures Contents() == RunSymbol(config, old(Contents()), symbol, candle, moment, a)
      ensures history == old(history) + [report]
    {
      var id := CycleIdOf(symbol, config.timeframe, candle);
      var known := AlreadyExecuted(id, a.lookupFails);
      if known {
        report := Report(id, symbol, candle, DUPLICATE, None);
        stats := stats.(duplicate := stats.duplicate + 1);
      } else {
        report := RunCycle(symbol, id, candle, moment, a);
      }
      history := history + [report];
    }

    method VisitSymbols(t: TickAnswers) returns (reports: seq<Report>)
      requires Fits(config, t)
      modifies this`seenCycles, this`store, this`stats, this`history
      ensures Contents() == RunSymbols(config, old(Contents()), |config.symbols|, t)
      ensures history == old(history) + reports
    {
      var candle := CandleTimestamp(t.moment, config.intervalSeconds);
      reports := [];
      for i := 0 to |config.symbols|
        invariant Contents() == RunSymbols(config, old(Contents()), i, t)
        invariant history == old(history) + reports
      {
        var report := VisitSymbol(config.symbols[i], candle, t.moment, t.symbols[i]);
        reports := reports + [report];
      }
    }

    // --------------------------------------------------------------- resolving

    method FailObservation(o: Observation, target: Status, reason: Reason, moment: int, saves: bool)
      modifies this`store
      ensures Contents() == FailWith(config, old(Contents()), o, target, reason, moment, saves)
    {
      var failed := Fail(o, target, reason, moment);
      if failed.Ok? { PersistObservation(failed.value, saves); }
    }

    method AdvanceObservation(o: Observation, target: Status, moment: int, saves: bool)
      modifies this`store
      ensures Contents() == AdvanceTo(config, old(Contents()), o, target, moment, saves)
    {
      var next := Advance(o, target, None, moment);
      if next.Ok? { PersistObservation(next.value, saves); }
    }

    /** Hands a labelled record to the dataset; the result is dropped, an exception is logged. */
    method Offer(o: Observation, a: DueAnswers, moment: int)
      modifies this`store, ingestor
      ensures Contents() == HandToDataset(config, old(Contents()), o, a, moment)
    {
      if a.mark.Some? && ingestor != null {
        var result := ingestor.IngestRow(o, a.mark, a.dataset);
        if !result.Raised? { AdvanceObservation(o, DATASET_READY, moment, a.savesReady); }
      }
    }

    method SaveCalculated(record: Observation, a: DueAnswers)
      modifies this`store, this`stats
      ensures Contents() == Save(config, Tallied(old(Contents()), a.mark.Some?), record, a.saves)
    {
      stats := stats.(resolved := stats.resolved + 1);
      if a.mark.Some? { stats := stats.(labelled := stats.labelled + 1); }
      PersistObservation(record, a.saves);
    }

    /** The part of `_resolve_one` after a resolved outcome; raised stands for a refused transition. */
    method SettleObservation(o: Observation, a: DueAnswers, moment: int) returns (raised: bool)
      modifies this`store, this`stats, ingestor
      ensures raised == Advance(o, HORIZON_REACHED, None, moment).Err?
      ensures raised ==> Contents() == old(Contents())
      ensures !raised ==> Contents() == Settle(config, old(Contents()), o, a, moment)
    {
      var record := Calculate(o, a.mark, moment);
      if record.None? { return true; }
      SaveCalculated(record.value, a);
      Offer(record.value, a, moment);
      return false;
    }

    /** `_resolve_one`; raised is true when it lets an exception through. */
    method Resolve(o: Observation, a: DueAnswers, moment: int) returns (raised: bool)
      modifies this`store, this`stats, ingestor
      ensures raised ==> Contents() == old(Contents())
      ensures raised ==> var w := Contents();
        ResolveOne(config, w, o, a, moment)
           == FailWith(config, w, o, CALCULATION_ERROR, CalculationError, moment, a.saves)
      ensures !raised ==> Contents() == ResolveOne(config, old(Contents()), o, a, moment)
    {
      if !HorizonReached(o, moment) { return false; }
      if a.crashes { return true; }
      var result := ForwardOutcome.Resolve(config.costs, o.subject, a.candles, moment);
      match result
      case Err(NOT_DIRECTIONAL) =>
        AdvanceObservation(o, HORIZON_REACHED, moment, a.saves);
        return false;
      case Err(NO_FUTURE_DATA) =>
        if TimedOut(config, o, moment) { FailObservation(o, TIMEOUT, NoFutureData, moment, a.saves); }
        return false;
      case Err(_) =>
        return false;
      case Ok(_) =>
        raised := SettleObservation(o, a, moment);
    }

    method ResolvePending(t: TickAnswers)
      modifies this`store, this`stats, ingestor
      ensures Contents() == ResolveDue(config, old(Contents()), t)
    {
      if !config.hasRepository || t.dueFails { return; }
      var loaded := store;
      var pending := Due(loaded, t.due, t.moment, config.resolveBatch);
      DueAreStored(loaded, t.due, t.moment, config.resolveBatch);
      for i := 0 to |pending|
        invariant Contents() == ResolveFirst(config, old(Contents()), loaded, pending, i, t.moment)
      {
        var o := loaded[pending[i].id];
        var raised := Resolve(o, pending[i], t.moment);
        if raised { FailObservation(o, CALCULATION_ERROR, CalculationError, t.moment, pending[i].saves); }
      }
    }

    // -------------------------------------------------------------------- ticks

    method Stop()
      modifies this`state, this`stopping
      ensures Contents() == Stopped(old(Contents()), true)
    {
      stopping := true;
      state := DriverState.STOPPING;
    }

    method UpdateDriverState()
      modifies this`state
      ensures Contents() == UpdateState(old(Contents()))
    {
      if state == DriverState.FAILED || stopping { return; }
      state := if stats.consecutiveErrors != 0 then DriverState.DEGRADED else DriverState.RUNNING;
    }

    method RunOnce(t: TickAnswers) returns (reports: seq<Report>)
      requires Fits(config, t)
      modifies this, ingestor
      ensures Contents() == Tick(config, old(Contents()), t) && history == old(history) + reports
    {
      stats := stats.(ticks := stats.ticks + 1);
      assert Contents() == Begun(old(Contents()));
      reports := VisitSymbols(t);
      ResolvePending(t);
      stats := stats.(lastCycleAt := Some(t.moment));
      if t.stops { Stop(); }
      UpdateDriverState();
    }

    method Start(loaded: set<CycleId>)
      modifies this`state, this`stopping, this`seenCycles
      ensures Contents() == Started(config, old(Contents()), loaded)
    {
      stopping := false;
      state := DriverState.RUNNING;
      if config.hasRepository { seenCycles := seenCycles + loaded * store.Keys; }
    }

    /** One round of the loop: a tick, and the check of its streak of errors. */
    method RunRound(t: TickAnswers) returns (done: bool)
      requires Fits(config, t)
      modifies this, ingestor
      ensures var next := Tick(config, old(Contents()), t);
        && done == (DriverLaws.ReachedLimit(config, next) || next.stopping)
        && Contents() == if DriverLaws.ReachedLimit(config, next) then next.(state := DriverState.FAILED) else next
    {
      var reports := RunOnce(t);
      if stats.consecutiveErrors >= config.maxConsecutiveErrors {
        state := DriverState.FAILED;
        return true;
      }
      return stopping;
    }

    method RunUntilStopped(loaded: set<CycleId>, answers: seq<TickAnswers>)
      requires AllFit(config, answers)
      modifies this, ingestor
      ensures Contents() == RunForever(config, old(Contents()), loaded, answers)
    {
      Start(loaded);
      ghost var started := Contents();
      var i, done := 0, false;
      while !done && !stopping && i < |answers|
        invariant 0 <= i <= |answers|
        invariant Loop(config, started, answers) == if done then Contents() else Loop(config, Contents(), answers[i..])
      {
        done := RunRound(answers[i]);
        i := i + 1;
      }
      if state != DriverState.FAILED { state := DriverState.STOPPED; }
    }
  }
}
