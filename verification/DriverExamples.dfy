/** Runs of the driver that show what is not promised: reopening, unread data, an open end. */
module DriverExamples {
  import opened Prelude
  import opened Timeframes
  import opened Scheduling
  import opened Lifecycle
  import opened Ingestion
  import opened DriverModel
  import opened DriverLaws
  import opened DriverLife
  import ForwardOutcome

  // ------------------------------------------- a finished observation is reopened

  /** One symbol, a candle an hour and a horizon of five minutes. */
  predicate Hourly(c: Config) {
    && |c.symbols| == 1 && c.intervalSeconds == 3600 && c.horizon == ForwardOutcome.Horizon.M5
    && c.hasRepository && c.resolveBatch == 1
  }

  lemma FirstHour(moment: int)
    requires 0 <= moment < HOUR
    ensures CandleTimestamp(moment, 3600) == 0
  {
    DivisionIs(moment, SECOND, moment / SECOND, moment % SECOND);
    DivisionIs(moment / SECOND, 3600, 0, moment / SECOND);
  }

  function FirstId(c: Config): CycleId
    requires |c.symbols| == 1
  {
    CycleIdOf(c.symbols[0], c.timeframe, 0)
  }

  /** A tick of the first hour with the given answers, and the rows proposed as due. */
  predicate InFirstHour(t: TickAnswers, moment: int, lookupFails: bool, run: CycleRun) {
    0 <= moment < HOUR && t.moment == moment && t.symbols == [SymbolAnswers(lookupFails, run, true)] && !t.dueFails
  }

  /** The state after the only cycle of a tick. */
  function Cycled(c: Config, w: World, t: TickAnswers): World
    requires Fits(c, t) && |c.symbols| == 1
  {
    RunSymbol(c, Begun(w), c.symbols[0], CandleTimestamp(t.moment, c.intervalSeconds), t.moment, t.symbols[0])
  }

  lemma OneSymbolTick(c: Config, w: World, t: TickAnswers)
    requires Fits(c, t) && |c.symbols| == 1
    ensures Tick(c, w, t) == Ended(ResolveDue(c, Cycled(c, w, t), t), t)
  {
    assert RunSymbols(c, Begun(w), 0, t) == Begun(w);
    assert RunSymbols(c, Begun(w), 1, t) == Cycled(c, w, t);
  }

  lemma NothingDue(c: Config, w: World, t: TickAnswers)
    requires t.due == []
    ensures ResolveDue(c, w, t) == w
  {
  }

  /** A cycle that runs records its observation, whatever was stored. */
  lemma RunsAndRecords(c: Config, w: World, t: TickAnswers, moment: int, run: CycleRun, lookupFails: bool)
    requires Hourly(c) && InFirstHour(t, moment, lookupFails, run) && t.due == []
    requires run.CycleRan? && FirstId(c) !in w.seen && (lookupFails || FirstId(c) !in w.store)
    ensures var after := Tick(c, w, t);
      && after.store == w.store[FirstId(c) := RecordOf(c, FirstId(c), run, moment)]
      && after.seen == w.seen + {FirstId(c)}
      && Executions(after.history, FirstId(c)) == Executions(w.history, FirstId(c)) + 1
  {
    FirstHour(moment);
    OneSymbolTick(c, w, t);
    NothingDue(c, Cycled(c, w, t), t);
    CycleRunsIff(c, Begun(w), c.symbols[0], 0, moment, t.symbols[0]);
  }

  /** A row that is due and crashes the outcome engine. */
  predicate Crashing(row: DueAnswers, id: CycleId) { row.id == id && row.crashes && row.saves }

  lemma CrashCloses(c: Config, w: World, t: TickAnswers, row: DueAnswers)
    requires c.hasRepository && c.resolveBatch == 1 && !t.dueFails && t.due == [row] && Crashing(row, row.id)
    requires SoundStore(w.store) && IsDue(w.store, row.id, t.moment)
    ensures ResolveDue(c, w, t).store
         == w.store[row.id := w.store[row.id].(status := CALCULATION_ERROR,
                                               failureReason := Some(CalculationError), updatedAt := t.moment)]
    ensures ResolveDue(c, w, t).history == w.history
  {
    assert t.due[..0] == [] && t.due[0] == row;
    assert Due(w.store, [], t.moment, 1) == [];
    assert Due(w.store, t.due, t.moment, 1) == [row];
    DueAreStored(w.store, t.due, t.moment, 1);
    assert ResolveFirst(c, w, w.store, [row], 0, t.moment) == w;
    assert ResolveFirst(c, w, w.store, [row], 1, t.moment) == ResolveOne(c, w, w.store[row.id], row, t.moment);
  }

  /** The cycle is known, and its observation is closed. */
  lemma KnownAndCloses(c: Config, w: World, t: TickAnswers, moment: int, run: CycleRun, row: DueAnswers)
    requires Hourly(c) && InFirstHour(t, moment, false, run) && t.due == [row] && Crashing(row, FirstId(c))
    requires FirstId(c) in w.seen && SoundStore(w.store) && IsDue(w.store, FirstId(c), moment)
    ensures var id, after := FirstId(c), Tick(c, w, t);
      && after.store == w.store[id := w.store[id].(status := CALCULATION_ERROR,
                                                   failureReason := Some(CalculationError), updatedAt := moment)]
      && Executions(after.history, id) == Executions(w.history, id)
  {
    FirstHour(moment);
    OneSymbolTick(c, w, t);
    CrashCloses(c, Cycled(c, w, t), t, row);
    CycleRunsIff(c, Begun(w), c.symbols[0], 0, moment, t.symbols[0]);
    var report := Cycled(c, w, t).history[|w.history|];
    ExecutionsNote(w.history, report, FirstId(c));
  }

  /** Three ticks of the first hour: a cycle, the end of its observation, and the same cycle after a restart. */
  predicate ThreeTicks(
    c: Config, first: TickAnswers, second: TickAnswers, third: TickAnswers,
    run: CycleRun, rerun: CycleRun, row: DueAnswers)
  {
    && Hourly(c) && run.CycleRan? && !run.halted && run.draft.timestamp == 0 && rerun.CycleRan?
    && InFirstHour(first, 0, false, run) && first.due == []
    && InFirstHour(second, 5 * MINUTE, false, run) && second.due == [row] && Crashing(row, FirstId(c))
    && InFirstHour(third, 10 * MINUTE, true, rerun) && third.due == []
  }

  lemma SomeTicks(halted: bool)
    returns (c: Config, first: TickAnswers, second: TickAnswers, third: TickAnswers,
             run: CycleRun, rerun: CycleRun, row: DueAnswers)
    ensures ThreeTicks(c, first, second, third, run, rerun, row) && rerun.halted == halted
  {
    c := Config(3600, ["EURUSD"], "H1", ForwardOutcome.Horizon.M5, 5, 1, 3,
                ForwardOutcome.CostRules(0.0, 0.0, 0.0), true);
    run := CycleRan(Draft(ForwardOutcome.BUY, Some(1.0), 0, None, None), false, []);
    rerun := run.(halted := halted);
    row := DueAnswers(FirstId(c), [], true, None, true, Answers(false, Written), true);
    first := TickAnswers(0, [SymbolAnswers(false, run, true)], false, [], false);
    second := TickAnswers(5 * MINUTE, [SymbolAnswers(false, run, true)], false, [row], false);
    third := TickAnswers(10 * MINUTE, [SymbolAnswers(true, rerun, true)], false, [], false);
  }

  lemma RunsAndFinishes(c: Config, w: World, first: TickAnswers, second: TickAnswers, run: CycleRun, row: DueAnswers)
    requires Hourly(c) && run.CycleRan? && !run.halted && run.draft.timestamp == 0
    requires InFirstHour(first, 0, false, run) && first.due == []
    requires InFirstHour(second, 5 * MINUTE, false, run) && second.due == [row] && Crashing(row, FirstId(c))
    requires w.store == map[] && w.seen == {}
    ensures var id, closed := FirstId(c), Tick(c, Tick(c, w, first), second);
      && id in closed.store && closed.store[id].status == CALCULATION_ERROR
      && Executions(closed.history, id) == Executions(w.history, id) + 1
  {
    RunsAndRecords(c, w, first, 0, run, false);
    RecordIsSound(c, FirstId(c), run, 0);
    KnownAndCloses(c, Tick(c, w, first), second, 5 * MINUTE, run, row);
  }

  lemma RunsOver(c: Config, closed: World, third: TickAnswers, rerun: CycleRun)
    requires Hourly(c) && InFirstHour(third, 10 * MINUTE, true, rerun) && third.due == [] && rerun.CycleRan?
    requires FirstId(c) in closed.store && closed.store[FirstId(c)].status == CALCULATION_ERROR
    ensures var id, again := FirstId(c), Tick(c, Started(c, Restarted(closed), {}), third);
      && id in again.store && again.store[id].status == (if rerun.halted then DATA_INVALID else OBSERVING)
      && Executions(again.history, id) == Executions(closed.history, id) + 1
      && !Evolves(closed.store, again.store)
  {
    RunsAndRecords(c, Started(c, Restarted(closed), {}), third, 10 * MINUTE, rerun, true);
  }

  /**
   * An empty repository, three ticks, a restart that reloads no ids before the third, and one lookup
   * that fails: the finished observation is overwritten, and its cycle has run twice.
   */
  lemma FinishedIsOverwritten(w: World, halted: bool)
    returns (c: Config, first: TickAnswers, second: TickAnswers, third: TickAnswers,
             run: CycleRun, rerun: CycleRun, row: DueAnswers)
    requires w.store == map[] && w.seen == {}
    ensures ThreeTicks(c, first, second, third, run, rerun, row) && rerun.halted == halted
    ensures var id, closed := FirstId(c), Tick(c, Tick(c, w, first), second);
      var again := Tick(c, Started(c, Restarted(closed), {}), third);
      && id in closed.store && closed.store[id].status == CALCULATION_ERROR
      && id in again.store && again.store[id].status == (if halted then DATA_INVALID else OBSERVING)
      && Executions(again.history, id) == Executions(w.history, id) + 2
      && !Evolves(closed.store, again.store)
  {
    c, first, second, third, run, rerun, row := SomeTicks(halted);
    RunsAndFinishes(c, w, first, second, run, row);
    RunsOver(c, Tick(c, Tick(c, w, first), second), third, rerun);
  }

  // --------------------------------------------- ready without having been taken

  /** A stored observation from the start of 1970, with a horizon of five minutes. */
  predicate Watched(c: Config, w: World, o: Observation) {
    && c.hasRepository && o.status == OBSERVING && o.cycle in w.store && w.store[o.cycle] == o
    && o.subject == ForwardOutcome.Subject(ForwardOutcome.BUY, Some(1.0), ForwardOutcome.Horizon.M5, 0, None)
  }

  /** The only candle is stamped the given number of minutes after the entry. */
  predicate OneCandle(a: DueAnswers, minutes: int) {
    !a.crashes && a.saves && a.savesReady
    && a.candles == [ForwardOutcome.Row(Some(minutes * MINUTE), 1.0, None, None)]
  }

  lemma OneRow(o: Observation, a: DueAnswers, minutes: int, moment: int)
    requires 0 < minutes <= 5 && OneCandle(a, minutes) && moment >= 5 * MINUTE
    requires o.subject == ForwardOutcome.Subject(ForwardOutcome.BUY, Some(1.0), ForwardOutcome.Horizon.M5, 0, None)
    ensures ForwardOutcome.Checked(o.subject, a.candles, moment)
         == if minutes == 5 then Ok(a.candles) else Err(ForwardOutcome.HORIZON_NOT_REACHED)
  {
    assert a.candles[1..] == [];
    assert ForwardOutcome.InWindow(a.candles, 0, 5 * MINUTE) == a.candles;
    assert SortBy(a.candles, ForwardOutcome.TimeOf) == a.candles;
  }

  /** Another feature version: the dataset refuses the row, and the observation is DATASET_READY all the same. */
  lemma ReadyButRefused(c: Config, w: World, o: Observation, a: DueAnswers)
    requires Watched(c, w, o) && OneCandle(a, 5) && a.mark.Some? && o.featureVersion == Some("2")
    requires w.ingestor.Some? && w.ingestor.value.rules.featureVersion == "1"
    ensures var after := ResolveOne(c, w, o, a, 5 * MINUTE);
      StatusIn(after, o.cycle) == Some(DATASET_READY) && after.ingestor == w.ingestor
    ensures !TakenBy(w, o, a, 5 * MINUTE)
  {
    OneRow(o, a, 5, 5 * MINUTE);
    var record := Calculated(o, a.mark, 5 * MINUTE);
    assert HAPPY_PATH[Rank(OBSERVING) + 1] == HORIZON_REACHED && HAPPY_PATH[Rank(LABELED) + 1] == DATASET_READY;
    assert o.featureVersion.value[0] == '2' && w.ingestor.value.rules.featureVersion[0] == '1';
    assert Objection(w.ingestor.value.rules, record, a.mark) == Some(FEATURE_VERSION_MISMATCH);
  }

  /** A window that ends a minute short: the observation is still open when it has long been overdue. */
  lemma OverdueAndOpen(c: Config, w: World, o: Observation, a: DueAnswers, later: int)
    requires Watched(c, w, o) && OneCandle(a, 4) && later >= 5 * MINUTE && TimedOut(c, o, later)
    ensures ResolveOne(c, w, o, a, later) == w && StatusIn(w, o.cycle) == Some(OBSERVING)
  {
    OneRow(o, a, 4, later);
  }
}
