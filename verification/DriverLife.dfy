/** How the stored observations live over every run of the driver (observation/driver.py:342-479). */
module DriverLife {
  import opened Prelude
  import opened Scheduling
  import opened Lifecycle
  import opened Ingestion
  import opened DriverModel
  import opened DriverLaws
  import ForwardOutcome

  type Store = map<CycleId, Observation>

  // ----------------------------------------------------------------- evolution

  /** The same observation, untouched or further along its life. */
  predicate Succeeds(o: Observation, later: Observation) {
    later == o
    || (later.cycle == o.cycle && later.subject == o.subject && later.featureVersion == o.featureVersion
        && !Terminal(o.status) && Rank(o.status) < Rank(later.status))
  }

  ghost predicate Evolves(s: Store, later: Store) {
    forall id | id in s :: id in later && Succeeds(s[id], later[id])
  }

  lemma EvolvesTransitive(s: Store, t: Store, u: Store)
    requires Evolves(s, t) && Evolves(t, u)
    ensures Evolves(s, u)
  {
    forall id | id in s ensures id in u && Succeeds(s[id], u[id]) {
      assert Succeeds(s[id], t[id]) && Succeeds(t[id], u[id]);
    }
  }

  /** A successor was reached along allowed transitions. */
  lemma SuccessorsConnected(o: Observation, later: Observation)
    requires Succeeds(o, later)
    ensures Connected(o.status, later.status)
  {
    ReachesIff(o.status, later.status);
  }

  // ------------------------------------------------------------- never too early

  /** The statuses that follow the horizon. */
  predicate PastHorizon(status: Status) {
    status in {HORIZON_REACHED, OUTCOME_CALCULATED, LABELED, DATASET_READY, CALCULATION_ERROR, TIMEOUT}
  }

  /** A record under its own id, in a status the driver saves, and past the horizon only after the deadline. */
  predicate SoundRecord(id: CycleId, o: Observation) {
    && o.cycle == id
    && (o.status in {OBSERVING, DATA_INVALID} || (PastHorizon(o.status) && HorizonReached(o, o.updatedAt)))
  }

  ghost predicate SoundStore(s: Store) { forall id | id in s :: SoundRecord(id, s[id]) }

  lemma RecordIsSound(c: Config, id: CycleId, run: CycleRun, moment: int)
    requires run.CycleRan?
    ensures SoundRecord(id, RecordOf(c, id, run, moment))
  {
  }

  // ------------------------------------------------ one due observation at a time

  /** Only one record changed, and it became a sound successor of itself. */
  ghost predicate OneMoved(s: Store, later: Store, o: Observation) {
    && later.Keys == s.Keys
    && (forall id | id in s && id != o.cycle :: later[id] == s[id])
    && (o.cycle in s ==> Succeeds(o, later[o.cycle]) && SoundRecord(o.cycle, later[o.cycle]))
  }

  lemma SaveMoves(c: Config, s: Store, later: Store, o: Observation, next: Observation, saves: bool)
    requires OneMoved(s, later, o) && o.cycle in s && Succeeds(later[o.cycle], next) && SoundRecord(o.cycle, next)
    ensures OneMoved(s, Persist(c, later, next, saves), o)
  {
  }

  lemma AdvanceMoves(
    c: Config, s: Store, w: World, o: Observation, from: Observation, target: Status, moment: int, saves: bool)
    requires o.cycle in s && OneMoved(s, w.store, o) && Succeeds(w.store[o.cycle], from) && HorizonReached(from, moment)
    requires PastHorizon(target)
    ensures OneMoved(s, AdvanceTo(c, w, from, target, moment, saves).store, o)
  {
    var r := Advance(from, target, None, moment);
    if r.Ok? {
      AdvanceRises(from, target, None, moment);
      SaveMoves(c, s, w.store, o, r.value, saves);
    }
  }

  lemma FailMoves(c: Config, w: World, o: Observation, target: Status, reason: Reason, moment: int, saves: bool)
    requires o.cycle in w.store && OneMoved(w.store, w.store, o) && w.store[o.cycle] == o && HorizonReached(o, moment)
    requires PastHorizon(target)
    ensures OneMoved(w.store, FailWith(c, w, o, target, reason, moment, saves).store, o)
  {
    var r := Fail(o, target, reason, moment);
    if r.Ok? {
      AdvanceRises(o, target, Some(reason), moment);
      SaveMoves(c, w.store, w.store, o, r.value, saves);
    }
  }

  lemma SettleMoves(c: Config, w: World, o: Observation, a: DueAnswers, moment: int)
    requires o.cycle in w.store && w.store[o.cycle] == o && OneMoved(w.store, w.store, o)
    requires o.status == OBSERVING && HorizonReached(o, moment)
    ensures OneMoved(w.store, Settle(c, w, o, a, moment).store, o)
  {
    AdvanceRises(o, HORIZON_REACHED, None, moment);
    var record := Calculated(o, a.mark, moment);
    var saved := Save(c, Tallied(w, a.mark.Some?), record, a.saves);
    SaveMoves(c, w.store, w.store, o, record, a.saves);
    assert Succeeds(saved.store[o.cycle], record);
    DatasetMoves(c, w.store, saved, o, record, a, moment);
  }

  lemma DatasetMoves(c: Config, s: Store, w: World, o: Observation, record: Observation, a: DueAnswers, moment: int)
    requires o.cycle in s && OneMoved(s, w.store, o) && Succeeds(w.store[o.cycle], record)
      && HorizonReached(record, moment)
    ensures OneMoved(s, HandToDataset(c, w, record, a, moment).store, o)
  {
    if a.mark.Some? && w.ingestor.Some? {
      var after := w.(ingestor := Some(Ingest(w.ingestor.value, record, a.mark, a.dataset).0));
      AdvanceMoves(c, s, after, o, record, DATASET_READY, moment, a.savesReady);
    }
  }

  lemma ResolveOneMoves(c: Config, w: World, o: Observation, a: DueAnswers, moment: int)
    requires o.cycle in w.store && w.store[o.cycle] == o && SoundRecord(o.cycle, o) && o.status == OBSERVING
    ensures OneMoved(w.store, ResolveOne(c, w, o, a, moment).store, o)
  {
    if HorizonReached(o, moment) {
      if a.crashes {
        FailMoves(c, w, o, CALCULATION_ERROR, CalculationError, moment, a.saves);
      } else {
        match ForwardOutcome.Resolve(c.costs, o.subject, a.candles, moment)
        case Err(NOT_DIRECTIONAL) => AdvanceMoves(c, w.store, w, o, o, HORIZON_REACHED, moment, a.saves);
        case Err(NO_FUTURE_DATA) => FailMoves(c, w, o, TIMEOUT, NoFutureData, moment, a.saves);
        case Err(_) =>
        case Ok(_) => SettleMoves(c, w, o, a, moment);
      }
    }
  }

  /** The rows to resolve are distinct, stored, under way and past their deadline. */
  ghost predicate Pending(s: Store, rows: seq<DueAnswers>, moment: int) {
    && (forall i | 0 <= i < |rows| :: IsDue(s, rows[i].id, moment))
    && (forall i, j | 0 <= i < j < |rows| :: rows[i].id != rows[j].id)
  }

  lemma {:induction false} DueIsPending(s: Store, proposed: seq<DueAnswers>, moment: int, limit: nat)
    ensures Pending(s, Due(s, proposed, moment, limit), moment)
  {
    if proposed != [] { DueIsPending(s, proposed[..|proposed| - 1], moment, limit); }
  }

  /** The rows from n on are still as they were loaded. */
  ghost predicate Untouched(s: Store, later: Store, rows: seq<DueAnswers>, n: nat) {
    forall i | n <= i < |rows| :: rows[i].id in s && rows[i].id in later && later[rows[i].id] == s[rows[i].id]
  }

  /** What holds once the first n rows are resolved. */
  ghost predicate Resolving(s: Store, later: Store, rows: seq<DueAnswers>, n: nat) {
    Evolves(s, later) && SoundStore(later) && later.Keys == s.Keys && Untouched(s, later, rows, n)
  }

  lemma ResolveNext(c: Config, s: Store, w: World, rows: seq<DueAnswers>, n: nat, moment: int)
    requires 0 < n <= |rows| && AllStored(s, rows) && Pending(s, rows, moment) && SoundStore(s)
    requires Resolving(s, w.store, rows, n - 1)
    ensures Resolving(s, ResolveOne(c, w, s[rows[n - 1].id], rows[n - 1], moment).store, rows, n)
  {
    var row := rows[n - 1];
    var o := s[row.id];
    assert IsDue(s, row.id, moment) && SoundRecord(row.id, o) && w.store[row.id] == o;
    var later := ResolveOne(c, w, o, row, moment).store;
    ResolveOneMoves(c, w, o, row, moment);
    MovedEvolves(w.store, later, o);
    EvolvesTransitive(s, w.store, later);
    StillUntouched(s, w.store, later, o, rows, n, moment);
  }

  /** The stored observations once the first n rows are resolved. */
  function StoreAfter(c: Config, w: World, rows: seq<DueAnswers>, n: nat, moment: int): Store
    requires n <= |rows| && AllStored(w.store, rows)
  {
    ResolveFirst(c, w, w.store, rows, n, moment).store
  }

  lemma NoneResolved(c: Config, w: World, rows: seq<DueAnswers>, moment: int)
    requires AllStored(w.store, rows) && SoundStore(w.store)
    ensures Resolving(w.store, StoreAfter(c, w, rows, 0, moment), rows, 0)
  {
    forall i | 0 <= i < |rows| ensures rows[i].id in w.store {}
  }

  lemma OneMoreResolved(c: Config, w: World, rows: seq<DueAnswers>, n: nat, moment: int)
    requires 0 < n <= |rows| && AllStored(w.store, rows) && Pending(w.store, rows, moment) && SoundStore(w.store)
    requires Resolving(w.store, StoreAfter(c, w, rows, n - 1, moment), rows, n - 1)
    ensures Resolving(w.store, StoreAfter(c, w, rows, n, moment), rows, n)
  {
    ResolveNext(c, w.store, ResolveFirst(c, w, w.store, rows, n - 1, moment), rows, n, moment);
  }

  lemma {:induction false} ResolveFirstEvolves(c: Config, w: World, rows: seq<DueAnswers>, n: nat, moment: int)
    requires n <= |rows| && AllStored(w.store, rows) && Pending(w.store, rows, moment) && SoundStore(w.store)
    ensures Resolving(w.store, StoreAfter(c, w, rows, n, moment), rows, n)
  {
    if n == 0 {
      NoneResolved(c, w, rows, moment);
    } else {
      ResolveFirstEvolves(c, w, rows, n - 1, moment);
      OneMoreResolved(c, w, rows, n, moment);
    }
  }

  lemma StillUntouched(s: Store, mid: Store, later: Store, o: Observation, rows: seq<DueAnswers>, n: nat, moment: int)
    requires 0 < n <= |rows| && Pending(s, rows, moment) && Untouched(s, mid, rows, n - 1)
    requires OneMoved(mid, later, o) && o.cycle == rows[n - 1].id
    ensures Untouched(s, later, rows, n)
  {
    forall i | n <= i < |rows| ensures rows[i].id in later && later[rows[i].id] == s[rows[i].id] {
      assert rows[n - 1].id != rows[i].id;
    }
  }

  lemma MovedEvolves(s: Store, later: Store, o: Observation)
    requires OneMoved(s, later, o) && o.cycle in s && s[o.cycle] == o && SoundStore(s)
    ensures Evolves(s, later) && SoundStore(later)
  {
  }

  lemma ResolveDueEvolves(c: Config, w: World, t: TickAnswers)
    requires SoundStore(w.store)
    ensures var later := ResolveDue(c, w, t).store;
      Evolves(w.store, later) && SoundStore(later) && later.Keys == w.store.Keys
  {
    if c.hasRepository && !t.dueFails {
      var pending := Due(w.store, t.due, t.moment, c.resolveBatch);
      DueAreStored(w.store, t.due, t.moment, c.resolveBatch);
      DueIsPending(w.store, t.due, t.moment, c.resolveBatch);
      ResolveFirstEvolves(c, w, pending, |pending|, t.moment);
    }
  }

  // ------------------------------------------------------------------ the cycles

  /** Memory covers the repository, or the repository answers every lookup of the tick. */
  ghost predicate Guarded(w: World, t: TickAnswers) {
    w.store.Keys <= w.seen || forall i | 0 <= i < |t.symbols| :: !t.symbols[i].lookupFails
  }

  predicate Covered(w: World) { w.store.Keys <= w.seen }

  lemma SymbolEvolves(c: Config, w: World, n: nat, t: TickAnswers)
    requires c.hasRepository && Fits(c, t) && n < |c.symbols| && SoundStore(w.store)
    requires Covered(w) || !t.symbols[n].lookupFails
    ensures var after := NextSymbol(c, w, n, t);
      Evolves(w.store, after.store) && SoundStore(after.store) && (Covered(w) ==> Covered(after))
  {
    var a, candle := t.symbols[n], CandleTimestamp(t.moment, c.intervalSeconds);
    if a.run.CycleRan? { RecordIsSound(c, CycleIdOf(c.symbols[n], c.timeframe, candle), a.run, t.moment); }
  }

  /** What the first symbols of a tick leave of a guarded state. */
  ghost predicate EvolvedTo(w: World, after: World) {
    Evolves(w.store, after.store) && SoundStore(after.store) && (Covered(w) ==> Covered(after))
  }

  lemma OneMoreEvolves(c: Config, w: World, n: nat, t: TickAnswers)
    requires c.hasRepository && Fits(c, t) && n < |c.symbols| && Guarded(w, t)
    requires EvolvedTo(w, AfterSymbols(c, w, n, t))
    ensures EvolvedTo(w, AfterSymbols(c, w, n + 1, t))
  {
    var mid := AfterSymbols(c, w, n, t);
    OneMoreSymbol(c, w, n, t);
    SymbolEvolves(c, mid, n, t);
    EvolvesTransitive(w.store, mid.store, AfterSymbols(c, w, n + 1, t).store);
  }

  lemma {:induction false} SymbolsEvolve(c: Config, w: World, n: nat, t: TickAnswers)
    requires c.hasRepository && Fits(c, t) && n <= |c.symbols| && SoundStore(w.store) && Guarded(w, t)
    ensures EvolvedTo(w, AfterSymbols(c, w, n, t))
  {
    if n == 0 {
      NoneEvolves(c, w, t);
    } else {
      SymbolsEvolve(c, w, n - 1, t);
      OneMoreEvolves(c, w, n - 1, t);
    }
  }

  lemma NoneEvolves(c: Config, w: World, t: TickAnswers)
    requires Fits(c, t) && SoundStore(w.store)
    ensures EvolvedTo(w, AfterSymbols(c, w, 0, t))
  {
  }

  lemma TickEvolves(c: Config, w: World, t: TickAnswers)
    requires c.hasRepository && Fits(c, t) && SoundStore(w.store) && Guarded(w, t)
    ensures var after := Tick(c, w, t);
      Evolves(w.store, after.store) && SoundStore(after.store) && (Covered(w) ==> Covered(after))
  {
    SymbolsEvolve(c, Begun(w), |c.symbols|, t);
    var ran := AfterSymbols(c, Begun(w), |c.symbols|, t);
    ResolveDueEvolves(c, ran, t);
    ResolveDueSameCycles(c, ran, t);
    EvolvesTransitive(w.store, ran.store, ResolveDue(c, ran, t).store);
  }

  /**
   * One process whose memory covers the repository when it starts: whatever fails afterwards,
   * statuses only move forward, terminal records are never rewritten, and nothing passes its
   * horizon before its deadline.
   */
  lemma {:induction false} ProcessEvolves(c: Config, w: World, ticks: seq<TickAnswers>)
    requires c.hasRepository && AllFit(c, ticks) && SoundStore(w.store) && Covered(w)
    ensures Evolves(w.store, Run(c, w, ticks).store) && SoundStore(Run(c, w, ticks).store)
    decreases |ticks|
  {
    if ticks != [] {
      var next := Tick(c, w, ticks[0]);
      TickEvolves(c, w, ticks[0]);
      ProcessEvolves(c, next, ticks[1..]);
      EvolvesTransitive(w.store, next.store, Run(c, next, ticks[1..]).store);
    }
  }

  ghost predicate LookupsAnswer(t: TickAnswers) { forall i | 0 <= i < |t.symbols| :: !t.symbols[i].lookupFails }

  /** Any number of processes, as long as no lookup fails: the same, whatever else fails. */
  lemma {:induction false} HistoryEvolves(c: Config, w: World, events: seq<ProcessEvent>)
    requires c.hasRepository && SoundStore(w.store)
    requires forall i | 0 <= i < |events| :: EventFits(c, events[i])
    requires forall i | 0 <= i < |events| && events[i].OneTick? :: LookupsAnswer(events[i].t)
    ensures Evolves(w.store, History(c, w, events).store) && SoundStore(History(c, w, events).store)
    decreases |events|
  {
    if events != [] {
      var next := Happen(c, w, events[0]);
      if events[0].OneTick? { TickEvolves(c, w, events[0].t); }
      HistoryEvolves(c, next, events[1..]);
      EvolvesTransitive(w.store, next.store, History(c, next, events[1..]).store);
    }
  }

  // --------------------------------------------- exactly when a record is lost

  /** A cycle runs, and saves, over an observation that the repository already holds. */
  predicate Overwrites(c: Config, w: World, id: CycleId, a: SymbolAnswers) {
    c.hasRepository && id in w.store && id !in w.seen && a.lookupFails && a.saves && a.run.CycleRan?
  }

  /** The overwriting record is the stored one, or closes the same live observation for invalid data. */
  predicate Harmless(stored: Observation, run: CycleRun, record: Observation)
    requires run.CycleRan?
  {
    record == stored
    || (run.halted && !Terminal(stored.status)
        && record.subject == stored.subject && record.featureVersion == stored.featureVersion)
  }

  /** A step that sets a stored observation back, or rewrites a finished one. */
  predicate Harms(c: Config, w: World, symbol: string, candle: int, moment: int, a: SymbolAnswers) {
    var id := CycleIdOf(symbol, c.timeframe, candle);
    Overwrites(c, w, id, a) && !Harmless(w.store[id], a.run, RecordOf(c, id, a.run, moment))
  }

  lemma SoundRank(id: CycleId, o: Observation)
    requires SoundRecord(id, o)
    ensures Rank(o.status) >= Rank(OBSERVING) && (!Terminal(o.status) ==> Rank(o.status) < Rank(DATA_INVALID))
  {
  }

  lemma HarmlessIff(c: Config, id: CycleId, stored: Observation, run: CycleRun, moment: int)
    requires run.CycleRan? && SoundRecord(id, stored)
    ensures Succeeds(stored, RecordOf(c, id, run, moment)) <==> Harmless(stored, run, RecordOf(c, id, run, moment))
  {
    SoundRank(id, stored);
  }

  /** A cycle's save keeps what is stored moving forward exactly when it does no harm, whatever failed before. */
  lemma SymbolEvolvesIff(c: Config, w: World, symbol: string, candle: int, moment: int, a: SymbolAnswers)
    requires SoundStore(w.store)
    ensures Evolves(w.store, RunSymbol(c, w, symbol, candle, moment, a).store)
      <==> !Harms(c, w, symbol, candle, moment, a)
    ensures SoundStore(RunSymbol(c, w, symbol, candle, moment, a).store)
  {
    var id := CycleIdOf(symbol, c.timeframe, candle);
    if a.run.CycleRan? {
      RecordIsSound(c, id, a.run, moment);
      if id in w.store { HarmlessIff(c, id, w.store[id], a.run, moment); }
    }
  }

  /** The n-th symbol of the tick, from the state the earlier ones left. */
  ghost predicate StepEvolves(c: Config, w: World, n: nat, t: TickAnswers)
    requires Fits(c, t) && n < |c.symbols|
  {
    Evolves(AfterSymbols(c, Begun(w), n, t).store, AfterSymbols(c, Begun(w), n + 1, t).store)
  }

  ghost predicate StepHarms(c: Config, w: World, n: nat, t: TickAnswers)
    requires Fits(c, t) && n < |c.symbols|
  {
    Harms(c, AfterSymbols(c, Begun(w), n, t), c.symbols[n], CandleTimestamp(t.moment, c.intervalSeconds), t.moment,
          t.symbols[n])
  }

  /** Every save of a tick moves what is stored forward. */
  ghost predicate TickStepsEvolve(c: Config, w: World, t: TickAnswers)
    requires Fits(c, t)
  {
    && (forall n | 0 <= n < |c.symbols| :: StepEvolves(c, w, n, t))
    && Evolves(AfterSymbols(c, Begun(w), |c.symbols|, t).store, Tick(c, w, t).store)
  }

  /** No cycle of the tick does harm. */
  ghost predicate TickHarmless(c: Config, w: World, t: TickAnswers)
    requires Fits(c, t)
  {
    forall n | 0 <= n < |c.symbols| :: !StepHarms(c, w, n, t)
  }

  lemma {:induction false} SymbolsKeepSound(c: Config, w: World, n: nat, t: TickAnswers)
    requires Fits(c, t) && n <= |c.symbols| && SoundStore(w.store)
    ensures SoundStore(AfterSymbols(c, w, n, t).store)
  {
    if n > 0 {
      SymbolsKeepSound(c, w, n - 1, t);
      OneMoreSymbol(c, w, n - 1, t);
      SymbolEvolvesIff(c, AfterSymbols(c, w, n - 1, t), c.symbols[n - 1],
                       CandleTimestamp(t.moment, c.intervalSeconds), t.moment, t.symbols[n - 1]);
    }
  }

  lemma TickResolves(c: Config, w: World, t: TickAnswers)
    requires Fits(c, t) && SoundStore(w.store)
    ensures Evolves(AfterSymbols(c, Begun(w), |c.symbols|, t).store, Tick(c, w, t).store)
      && SoundStore(Tick(c, w, t).store)
  {
    SymbolsKeepSound(c, Begun(w), |c.symbols|, t);
    ResolveDueEvolves(c, AfterSymbols(c, Begun(w), |c.symbols|, t), t);
  }

  lemma StepIff(c: Config, w: World, n: nat, t: TickAnswers)
    requires Fits(c, t) && n < |c.symbols| && SoundStore(w.store)
    ensures StepEvolves(c, w, n, t) <==> !StepHarms(c, w, n, t)
  {
    SymbolsKeepSound(c, Begun(w), n, t);
    OneMoreSymbol(c, Begun(w), n, t);
    SymbolEvolvesIff(c, AfterSymbols(c, Begun(w), n, t), c.symbols[n],
                     CandleTimestamp(t.moment, c.intervalSeconds), t.moment, t.symbols[n]);
  }

  lemma TickStepsIff(c: Config, w: World, t: TickAnswers)
    requires Fits(c, t) && SoundStore(w.store)
    ensures TickStepsEvolve(c, w, t) <==> TickHarmless(c, w, t)
  {
    TickResolves(c, w, t);
    forall n | 0 <= n < |c.symbols| ensures StepEvolves(c, w, n, t) <==> !StepHarms(c, w, n, t) {
      StepIff(c, w, n, t);
    }
  }

  ghost predicate AllEventsFit(c: Config, events: seq<ProcessEvent>) {
    forall i | 0 <= i < |events| :: EventFits(c, events[i])
  }

  ghost predicate StepsEvolve(c: Config, w: World, events: seq<ProcessEvent>)
    requires AllEventsFit(c, events)
    decreases |events|
  {
    events == [] || (
      && (events[0].OneTick? ==> TickStepsEvolve(c, w, events[0].t))
      && StepsEvolve(c, Happen(c, w, events[0]), events[1..]))
  }

  ghost predicate NoHarm(c: Config, w: World, events: seq<ProcessEvent>)
    requires AllEventsFit(c, events)
    decreases |events|
  {
    events == [] || (
      && (events[0].OneTick? ==> TickHarmless(c, w, events[0].t))
      && NoHarm(c, Happen(c, w, events[0]), events[1..]))
  }

  lemma HappenKeepsSound(c: Config, w: World, e: ProcessEvent)
    requires EventFits(c, e) && SoundStore(w.store)
    ensures SoundStore(Happen(c, w, e).store)
  {
    if e.OneTick? { TickResolves(c, w, e.t); }
  }

  /**
   * The exact condition, over any number of ticks and restarts and whatever fails: every save moves
   * the stored observations forward exactly when no cycle overwrites one harmfully.
   */
  lemma {:induction false} StepsEvolveIff(c: Config, w: World, events: seq<ProcessEvent>)
    requires AllEventsFit(c, events) && SoundStore(w.store)
    ensures StepsEvolve(c, w, events) <==> NoHarm(c, w, events)
    decreases |events|
  {
    if events != [] {
      if events[0].OneTick? { TickStepsIff(c, w, events[0].t); }
      HappenKeepsSound(c, w, events[0]);
      StepsEvolveIff(c, Happen(c, w, events[0]), events[1..]);
    }
  }

  /** Nothing gets past its horizon before its deadline, in any run, harm or no harm. */
  lemma {:induction false} NeverTooEarly(c: Config, w: World, events: seq<ProcessEvent>)
    requires AllEventsFit(c, events) && SoundStore(w.store)
    ensures SoundStore(History(c, w, events).store)
    decreases |events|
  {
    if events != [] {
      HappenKeepsSound(c, w, events[0]);
      NeverTooEarly(c, Happen(c, w, events[0]), events[1..]);
    }
  }

  /** A finished observation is put back to OBSERVING exactly when a completed cycle overwrites it. */
  lemma FinishedIsReopenedIff(c: Config, w: World, symbol: string, candle: int, moment: int, a: SymbolAnswers)
    requires SoundStore(w.store)
    requires var id := CycleIdOf(symbol, c.timeframe, candle); id in w.store && Terminal(w.store[id].status)
    ensures var id, after := CycleIdOf(symbol, c.timeframe, candle), RunSymbol(c, w, symbol, candle, moment, a);
      after.store[id].status == OBSERVING <==> Overwrites(c, w, id, a) && !a.run.halted
  {
  }

  // ----------------------------------------------------- what a resolution means

  /** A due observation whose saves work. */
  ghost predicate Resolvable(c: Config, w: World, o: Observation, a: DueAnswers, moment: int) {
    c.hasRepository && a.saves && a.savesReady && o.status == OBSERVING && HorizonReached(o, moment)
    && o.cycle in w.store && w.store[o.cycle] == o
  }

  function Resolution(
    c: Config, o: Observation, a: DueAnswers, moment: int): Result<ForwardOutcome.Outcome, ForwardOutcome.Refusal>
  {
    ForwardOutcome.Resolve(c.costs, o.subject, a.candles, moment)
  }

  predicate StaysOpen(c: Config, o: Observation, refusal: ForwardOutcome.Refusal, moment: int) {
    refusal != ForwardOutcome.NOT_DIRECTIONAL && (refusal == ForwardOutcome.NO_FUTURE_DATA ==> !TimedOut(c, o, moment))
  }

  function StatusIn(w: World, id: CycleId): Option<Status> { if id in w.store then Some(w.store[id].status) else None }

  lemma FailedStatus(c: Config, w: World, o: Observation, target: Status, reason: Reason, moment: int)
    requires c.hasRepository && o.status == OBSERVING && target in FAILURE_STATES
    ensures StatusIn(FailWith(c, w, o, target, reason, moment, true), o.cycle) == Some(target)
  {
  }

  lemma ClosedStatus(c: Config, w: World, o: Observation, moment: int)
    requires c.hasRepository && o.status == OBSERVING
    ensures StatusIn(AdvanceTo(c, w, o, HORIZON_REACHED, moment, true), o.cycle) == Some(HORIZON_REACHED)
  {
    assert HAPPY_PATH[Rank(OBSERVING) + 1] == HORIZON_REACHED;
  }

  lemma SettledStatus(c: Config, w: World, o: Observation, a: DueAnswers, moment: int)
    requires c.hasRepository && o.status == OBSERVING && a.saves
    ensures StatusIn(Settle(c, w, o, a, moment), o.cycle)
         in {Some(OUTCOME_CALCULATED), Some(LABELED), Some(DATASET_READY)}
  {
    assert HAPPY_PATH[Rank(OBSERVING) + 1] == HORIZON_REACHED;
  }

  /** How an observation that cannot be resolved ends, and that it stays open in every other case. */
  lemma UnresolvedEndings(c: Config, w: World, o: Observation, a: DueAnswers, moment: int)
    requires Resolvable(c, w, o, a, moment)
    ensures var status, r := StatusIn(ResolveOne(c, w, o, a, moment), o.cycle), Resolution(c, o, a, moment);
      && (status == Some(CALCULATION_ERROR) <==> a.crashes)
      && (status == Some(HORIZON_REACHED) <==> !a.crashes && r == Err(ForwardOutcome.NOT_DIRECTIONAL))
      && (status == Some(TIMEOUT) <==> !a.crashes && r == Err(ForwardOutcome.NO_FUTURE_DATA) && TimedOut(c, o, moment))
      && (status == Some(OBSERVING) <==> !a.crashes && r.Err? && StaysOpen(c, o, r.error, moment))
  {
    if a.crashes {
      FailedStatus(c, w, o, CALCULATION_ERROR, CalculationError, moment);
    } else {
      match ForwardOutcome.Resolve(c.costs, o.subject, a.candles, moment)
      case Err(NOT_DIRECTIONAL) => ClosedStatus(c, w, o, moment);
      case Err(NO_FUTURE_DATA) => FailedStatus(c, w, o, TIMEOUT, NoFutureData, moment);
      case Err(_) =>
      case Ok(_) => SettledStatus(c, w, o, a, moment);
    }
  }

  /** A resolution is counted exactly when there is an outcome, and as labelled exactly when it got a label. */
  lemma ResolutionIsCounted(c: Config, w: World, o: Observation, a: DueAnswers, moment: int)
    requires o.status == OBSERVING && HorizonReached(o, moment)
    ensures var before, after := w.stats, ResolveOne(c, w, o, a, moment).stats;
      var resolved := !a.crashes && Resolution(c, o, a, moment).Ok?;
      && after.resolved == before.resolved + (if resolved then 1 else 0)
      && after.labelled == before.labelled + (if resolved && a.mark.Some? then 1 else 0)
  {
    assert HAPPY_PATH[Rank(OBSERVING) + 1] == HORIZON_REACHED;
  }

  /** A window that stops short of the deadline is left open for good: no delay turns it into a timeout. */
  lemma ShortWindowStaysOpen(c: Config, w: World, o: Observation, a: DueAnswers, moment: int, later: int)
    requires Resolvable(c, w, o, a, moment) && !a.crashes && moment <= later
    requires Resolution(c, o, a, moment) == Err(ForwardOutcome.HORIZON_NOT_REACHED)
    ensures ResolveOne(c, w, o, a, later) == w
  {
    assert ForwardOutcome.Checked(o.subject, a.candles, later) == ForwardOutcome.Checked(o.subject, a.candles, moment);
  }

  /** The dataset took the row in this resolution. */
  predicate TakenBy(w: World, o: Observation, a: DueAnswers, moment: int) {
    a.mark.Some? && w.ingestor.Some?
      && Ingest(w.ingestor.value, Calculated(o, a.mark, moment), a.mark, a.dataset).1.Accepted?
  }

  /**
   * DATASET_READY does not mean that the dataset has the row: of the observations that become
   * ready, it took exactly those whose versions agree and that it had not seen.
   */
  lemma ReadyAndTakenIff(c: Config, w: World, o: Observation, a: DueAnswers, moment: int)
    requires Resolvable(c, w, o, a, moment) && w.ingestor.Some?
    requires StatusIn(ResolveOne(c, w, o, a, moment), o.cycle) == Some(DATASET_READY)
    ensures a.mark.Some? && Resolution(c, o, a, moment).Ok?
    ensures TakenBy(w, o, a, moment) <==>
      !Mismatch(o.featureVersion, w.ingestor.value.rules.featureVersion)
      && !Mismatch(a.mark.value.version, w.ingestor.value.rules.labelVersion)
      && !Seen(w.ingestor.value, o.cycle, a.dataset.lookupFails)
  {
    UnresolvedEndings(c, w, o, a, moment);
    assert a.mark.Some? && Resolution(c, o, a, moment).Ok?;
    assert o.subject.entryPrice.Some?;
  }
}
