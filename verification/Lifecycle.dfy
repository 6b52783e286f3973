/** The life of one observation (observation/lifecycle.py). */
module Lifecycle {
  import opened Prelude
  import opened Scheduling
  import ForwardOutcome

  datatype Status =
    | CREATED | FEATURES_CAPTURED | NN_PREDICTED | STRATEGY_EVALUATED | RISK_EVALUATED
    | OBSERVING | HORIZON_REACHED | OUTCOME_CALCULATED | LABELED | DATASET_READY
    | DATA_INVALID | MODEL_ERROR | CALCULATION_ERROR | TIMEOUT

  const HAPPY_PATH: seq<Status> := [
    CREATED, FEATURES_CAPTURED, NN_PREDICTED, STRATEGY_EVALUATED, RISK_EVALUATED,
    OBSERVING, HORIZON_REACHED, OUTCOME_CALCULATED, LABELED, DATASET_READY]

  const FAILURE_STATES: set<Status> := {DATA_INVALID, MODEL_ERROR, CALCULATION_ERROR, TIMEOUT}

  /** The place of a status on the path; a failure ends the life wherever it happens. */
  function Rank(status: Status): (r: nat)
    ensures r <= 10
    ensures if status in FAILURE_STATES then r == 10 else r < 10 && HAPPY_PATH[r] == status
  {
    match status
    case CREATED => 0
    case FEATURES_CAPTURED => 1
    case NN_PREDICTED => 2
    case STRATEGY_EVALUATED => 3
    case RISK_EVALUATED => 4
    case OBSERVING => 5
    case HORIZON_REACHED => 6
    case OUTCOME_CALCULATED => 7
    case LABELED => 8
    case DATASET_READY => 9
    case _ => 10
  }

  predicate Terminal(status: Status) { status in FAILURE_STATES || status == DATASET_READY }

  /** The next step of the path, or any failure; a terminal status allows nothing. */
  function AllowedTransitions(status: Status): set<Status> {
    if Terminal(status) then {} else {HAPPY_PATH[Rank(status) + 1]} + FAILURE_STATES
  }

  /** What a failure reports; the source renders it as text. */
  datatype Reason = Halted(reasons: seq<string>) | CalculationError | NoFutureData

  datatype Observation = Observation(
    cycle: CycleId, subject: ForwardOutcome.Subject, featureVersion: Option<string>,
    status: Status, failureReason: Option<Reason>, updatedAt: int)

  datatype LifecycleError = NotAllowed(source: Status, target: Status) | NotAFailure(target: Status)

  function Advance(
    o: Observation, target: Status, reason: Option<Reason>, now: int): Result<Observation, LifecycleError>
  {
    if target !in AllowedTransitions(o.status) then Err(NotAllowed(o.status, target))
    else Ok(o.(status := target, failureReason := reason, updatedAt := now))
  }

  function Fail(o: Observation, target: Status, reason: Reason, now: int): Result<Observation, LifecycleError> {
    if target !in FAILURE_STATES then Err(NotAFailure(target)) else Advance(o, target, Some(reason), now)
  }

  predicate HorizonReached(o: Observation, now: int) {
    var deadline := ForwardOutcome.Deadline(o.subject);
    deadline.Some? && now >= deadline.value
  }

  // ------------------------------------------------------------------- paths

  /** A walk along allowed transitions. */
  predicate IsPath(p: seq<Status>, a: Status, b: Status) {
    if p == [] then a == b
    else p[0] in AllowedTransitions(a) && IsPath(p[1..], p[0], b)
  }

  predicate Reaches(a: Status, b: Status) { a == b || (!Terminal(a) && Rank(a) < Rank(b)) }

  lemma {:induction false} PathsRise(p: seq<Status>, a: Status, b: Status)
    requires IsPath(p, a, b)
    ensures Reaches(a, b)
  {
    if p != [] { PathsRise(p[1..], p[0], b); }
  }

  lemma {:induction false} WalkTo(a: Status, b: Status) returns (p: seq<Status>)
    requires Reaches(a, b)
    ensures IsPath(p, a, b)
    decreases 10 - Rank(a)
  {
    if a == b {
      p := [];
    } else if b in FAILURE_STATES {
      p := [b];
      assert p[1..] == [];
    } else {
      var next := HAPPY_PATH[Rank(a) + 1];
      assert Rank(next) == Rank(a) + 1;
      var rest := WalkTo(next, b);
      p := [next] + rest;
      assert p[1..] == rest;
    }
  }

  ghost predicate Connected(a: Status, b: Status) { exists p: seq<Status> :: IsPath(p, a, b) }

  /** One status follows another along allowed transitions exactly when that one is live and of lower rank. */
  lemma ReachesIff(a: Status, b: Status)
    ensures Connected(a, b) <==> Reaches(a, b)
  {
    if Reaches(a, b) {
      var p := WalkTo(a, b);
      assert IsPath(p, a, b);
    }
    if Connected(a, b) {
      var p: seq<Status> :| IsPath(p, a, b);
      PathsRise(p, a, b);
    }
  }

  /** Nothing follows a terminal status, and every accepted step raises the rank. */
  lemma AdvanceRises(o: Observation, target: Status, reason: Option<Reason>, now: int)
    ensures var r := Advance(o, target, reason, now);
      && (Terminal(o.status) ==> r.Err?)
      && (r.Ok? ==> Rank(o.status) < Rank(r.value.status) && r.value.cycle == o.cycle && r.value.subject == o.subject)
      && (r.Ok? <==> if target in FAILURE_STATES then !Terminal(o.status) else Rank(target) == Rank(o.status) + 1)
  {
    if target !in FAILURE_STATES && !Terminal(o.status) {
      assert HAPPY_PATH[Rank(target)] == target && Rank(HAPPY_PATH[Rank(o.status) + 1]) == Rank(o.status) + 1;
    }
  }
}
