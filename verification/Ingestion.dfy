/** The gate between a labelled observation and the learning dataset (observation/ingestion.py). */
module Ingestion {
  import opened Prelude
  import opened Scheduling
  import opened Lifecycle

  datatype Label = Label(version: Option<string>)

  datatype Refusal =
    | NOT_LABELED | MISSING_LABEL | DUPLICATE_ROW
    | FEATURE_VERSION_MISMATCH | LABEL_VERSION_MISMATCH | NO_ENTRY_PRICE

  datatype Ingested = Accepted | Refused(refusal: Refusal) | Raised

  /** How the dataset repository takes a label: it writes, it finds no row to write to, or it raises. */
  datatype Attach = Written | NoRow | AttachRaised

  /** What the dataset repository does during one call. */
  datatype Answers = Answers(lookupFails: bool, attach: Attach)

  datatype Rules = Rules(featureVersion: string, labelVersion: string, hasRepository: bool)

  /** An ingestor: the rows it accepted in this process, and the rows its repository holds. */
  datatype Ingestor = Ingestor(rules: Rules, seen: set<CycleId>, rows: set<CycleId>)

  /** A version that is absent or empty is not compared. */
  predicate Mismatch(found: Option<string>, expected: string) {
    found.Some? && found.value != "" && found.value != expected
  }

  /** The refusals that do not depend on what was ingested before. */
  function Objection(rules: Rules, o: Observation, mark: Option<Label>): Option<Refusal> {
    if o.status !in {LABELED, OUTCOME_CALCULATED} then Some(NOT_LABELED)
    else if mark.None? then Some(MISSING_LABEL)
    else if Mismatch(o.featureVersion, rules.featureVersion) then Some(FEATURE_VERSION_MISMATCH)
    else if Mismatch(mark.value.version, rules.labelVersion) then Some(LABEL_VERSION_MISMATCH)
    else if o.subject.entryPrice.None? then Some(NO_ENTRY_PRICE)
    else None
  }

  predicate Seen(g: Ingestor, id: CycleId, lookupFails: bool) {
    id in g.seen || (g.rules.hasRepository && !lookupFails && id in g.rows)
  }

  function Ingest(g: Ingestor, o: Observation, mark: Option<Label>, answers: Answers): (Ingestor, Ingested) {
    var objection := Objection(g.rules, o, mark);
    if objection.Some? then (g, Refused(objection.value))
    else if Seen(g, o.cycle, answers.lookupFails) then (g, Refused(DUPLICATE_ROW))
    else if !g.rules.hasRepository then (g.(seen := g.seen + {o.cycle}), Accepted)
    else match answers.attach
      case AttachRaised => (g.(seen := g.seen + {o.cycle} - {o.cycle}), Raised)
      case Written => (g.(seen := g.seen + {o.cycle}, rows := g.rows + {o.cycle}), Accepted)
      case NoRow => (g.(seen := g.seen + {o.cycle}), Accepted)
  }

  class DatasetIngestor {
    const rules: Rules
    var known: set<CycleId>
    var rows: set<CycleId>

    constructor (rules: Rules, rows: set<CycleId>)
      ensures Contents() == Ingestor(rules, {}, rows)
    {
      this.rules := rules;
      known, this.rows := {}, rows;
    }

    ghost function Contents(): Ingestor
      reads this
    {
      Ingestor(rules, known, rows)
    }

    /** `seen`: memory first, then the repository; a lookup that fails counts as not seen. */
    method SeenBefore(id: CycleId, lookupFails: bool) returns (seen: bool)
      ensures seen == Seen(Contents(), id, lookupFails)
    {
      if id in known { return true; }
      if !rules.hasRepository { return false; }
      if lookupFails { return false; }
      return id in rows;
    }

    method IngestRow(o: Observation, mark: Option<Label>, answers: Answers) returns (result: Ingested)
      modifies this
      ensures (Contents(), result) == Ingest(old(Contents()), o, mark, answers)
    {
      if o.status != LABELED && o.status != OUTCOME_CALCULATED { return Refused(NOT_LABELED); }
      if mark.None? { return Refused(MISSING_LABEL); }
      if Mismatch(o.featureVersion, rules.featureVersion) { return Refused(FEATURE_VERSION_MISMATCH); }
      if Mismatch(mark.value.version, rules.labelVersion) { return Refused(LABEL_VERSION_MISMATCH); }
      if o.subject.entryPrice.None? { return Refused(NO_ENTRY_PRICE); }
      var duplicate := SeenBefore(o.cycle, answers.lookupFails);
      if duplicate { return Refused(DUPLICATE_ROW); }
      known := known + {o.cycle};
      if rules.hasRepository {
        match answers.attach {
          case AttachRaised =>
            known := known - {o.cycle};
            return Raised;
          case Written => rows := rows + {o.cycle};
          case NoRow =>
        }
      }
      return Accepted;
    }
  }

  // ------------------------------------------------------------- at most once

  /** A failed write leaves no trace, so the row can be tried again. */
  lemma FailedWriteIsRetryable(g: Ingestor, o: Observation, mark: Option<Label>, answers: Answers)
    requires Ingest(g, o, mark, answers).1.Raised?
    ensures Ingest(g, o, mark, answers).0 == g
    ensures g.rules.hasRepository && answers.attach == AttachRaised
    ensures forall b: Answers | b.attach != AttachRaised ::
      Ingest(g, o, mark, b).1 == if Seen(g, o.cycle, b.lookupFails) then Refused(DUPLICATE_ROW) else Accepted
  {
    assert o.cycle !in g.seen;
    assert g.seen + {o.cycle} - {o.cycle} == g.seen;
  }

  datatype Event = Submit(o: Observation, mark: Option<Label>, answers: Answers) | Restart

  /** A restart forgets what the process had seen and keeps the repository. */
  function Step(g: Ingestor, e: Event): Ingestor {
    match e
    case Submit(o, mark, answers) => Ingest(g, o, mark, answers).0
    case Restart => g.(seen := {})
  }

  predicate Accepts(g: Ingestor, e: Event, id: CycleId) {
    e.Submit? && e.o.cycle == id && Ingest(g, e.o, e.mark, e.answers).1.Accepted?
  }

  /** How often a row is accepted over a run. */
  function Acceptances(g: Ingestor, events: seq<Event>, id: CycleId): nat
    decreases |events|
  {
    if events == [] then 0
    else (if Accepts(g, events[0], id) then 1 else 0) + Acceptances(Step(g, events[0]), events[1..], id)
  }

  /** Within one process a row is accepted at most once, whatever the repository does. */
  lemma {:induction false} OncePerProcess(g: Ingestor, events: seq<Event>, id: CycleId)
    requires forall i | 0 <= i < |events| :: events[i].Submit?
    ensures Acceptances(g, events, id) <= if id in g.seen then 0 else 1
    decreases |events|
  {
    if events != [] { OncePerProcess(Step(g, events[0]), events[1..], id); }
  }

  /** The duplicate check can rely on the repository: it answers, and it writes what is accepted. */
  predicate Reliable(e: Event) { e.Submit? ==> !e.answers.lookupFails && e.answers.attach != NoRow }

  /** Across restarts too, as long as the repository answers and writes. */
  lemma {:induction false} OnceAcrossRestarts(g: Ingestor, events: seq<Event>, id: CycleId)
    requires g.rules.hasRepository && g.seen <= g.rows
    requires forall i | 0 <= i < |events| :: Reliable(events[i])
    ensures Acceptances(g, events, id) <= if id in g.rows then 0 else 1
    decreases |events|
  {
    if events != [] {
      assert Reliable(events[0]);
      OnceAcrossRestarts(Step(g, events[0]), events[1..], id);
    }
  }

  /** A row accepted before a restart is accepted again exactly when the repository cannot tell. */
  lemma AcceptedAgainIff(g: Ingestor, o: Observation, mark: Option<Label>, first: Answers, second: Answers)
    requires Ingest(g, o, mark, first).1.Accepted? && second.attach != AttachRaised
    ensures Ingest(Step(Ingest(g, o, mark, first).0, Restart), o, mark, second).1.Accepted?
      <==> !g.rules.hasRepository || second.lookupFails || (first.attach == NoRow && o.cycle !in g.rows)
  {
  }

  /** A repository that never answers: the row is accepted before the restart and after it. */
  lemma AcceptedTwice(o: Observation, mark: Option<Label>, rules: Rules)
    requires rules.hasRepository && Objection(rules, o, mark).None?
    ensures var submit := Submit(o, mark, Answers(true, Written));
      Acceptances(Ingestor(rules, {}, {}), [submit, Restart, submit], o.cycle) == 2
  {
    var submit := Submit(o, mark, Answers(true, Written));
    var g := Ingestor(rules, {}, {});
    var once, again := Step(g, submit), Step(Step(g, submit), Restart);
    assert [submit, Restart, submit][1..] == [Restart, submit] && [Restart, submit][1..] == [submit];
    assert Accepts(g, submit, o.cycle) && !Accepts(once, Restart, o.cycle) && Accepts(again, submit, o.cycle);
    assert [submit][1..] == [] && Acceptances(again, [submit], o.cycle) == 1;
    assert Acceptances(once, [Restart, submit], o.cycle) == 1;
  }
}
