/** What a recorded observation turned into once its horizon had elapsed (observation/outcome.py). */
module ForwardOutcome {
  import opened Prelude
  import opened Timeframes

  datatype Side = BUY | LONG | SELL | SHORT | OTHER

  /** `DIRECTIONAL`. */
  function SignOf(side: Side): Option<real> {
    match side
    case BUY => Some(1.0)
    case LONG => Some(1.0)
    case SELL => Some(-1.0)
    case SHORT => Some(-1.0)
    case OTHER => None
  }

  /** The horizons of ai/dataset/labels.py:26-30; Unknown stands for any other name. */
  datatype Horizon = M5 | M15 | M30 | H1 | H2 | H4 | H8 | H24 | Unknown

  function Window(horizon: Horizon): Option<int> {
    match horizon
    case M5 => Some(5 * MINUTE)
    case M15 => Some(15 * MINUTE)
    case M30 => Some(30 * MINUTE)
    case H1 => Some(HOUR)
    case H2 => Some(2 * HOUR)
    case H4 => Some(4 * HOUR)
    case H8 => Some(8 * HOUR)
    case H24 => Some(24 * HOUR)
    case Unknown => None
  }

  datatype Subject = Subject(side: Side, entryPrice: Option<real>, horizon: Horizon, timestamp: int,
                             spread: Option<real>)

  datatype Row = Row(timestamp: Option<int>, close: real, high: Option<real>, low: Option<real>)

  datatype CostRules = CostRules(commission: real, slippage: real, swapPerDay: real)

  datatype Outcome = Outcome(
    entryPrice: real, futurePrice: real, futureReturn: real, mfe: real, mae: real,
    holdingTime: int, estimatedCost: real, net: real, resolvedAt: int, bars: nat)

  datatype Refusal = HORIZON_NOT_REACHED | NO_FUTURE_DATA | NO_ENTRY_PRICE | UNKNOWN_HORIZON | NOT_DIRECTIONAL

  /** `costs_for`, summed: each part counts by its size, whatever its sign. */
  function TotalCost(rules: CostRules, spread: real, holding: int): real {
    Abs(Abs(spread)) + Abs(rules.commission) + Abs(rules.slippage)
    + Abs(Abs(rules.swapPerDay) * (MaxInt(holding, 0) as real / DAY as real))
  }

  function TimeOf(row: Row): real { row.timestamp.GetOr(0) as real }

  predicate Inside(row: Row, entryTime: int, deadline: int) {
    row.timestamp.Some? && entryTime < row.timestamp.value <= deadline
  }

  function InWindow(rows: seq<Row>, entryTime: int, deadline: int): seq<Row> {
    if rows == [] then []
    else if Inside(rows[0], entryTime, deadline) then [rows[0]] + InWindow(rows[1..], entryTime, deadline)
    else InWindow(rows[1..], entryTime, deadline)
  }

  function HighOf(row: Row): real { row.high.GetOr(row.close) }

  function LowOf(row: Row): real { row.low.GetOr(row.close) }

  function Highest(rows: seq<Row>): real
    requires rows != []
  {
    if |rows| == 1 then HighOf(rows[0]) else Max(HighOf(rows[0]), Highest(rows[1..]))
  }

  function Lowest(rows: seq<Row>): real
    requires rows != []
  {
    if |rows| == 1 then LowOf(rows[0]) else Min(LowOf(rows[0]), Lowest(rows[1..]))
  }

  /** The figures of a window that reaches its deadline. */
  function Figures(sign: real, entry: real, rows: seq<Row>, cost: real, entryTime: int, deadline: int): Outcome
    requires rows != [] && entry > 0.0
  {
    var futurePrice := rows[|rows| - 1].close;
    var futureReturn := sign * (futurePrice - entry) / entry;
    var best := if sign > 0.0 then Highest(rows) else Lowest(rows);
    var worst := if sign > 0.0 then Lowest(rows) else Highest(rows);
    Outcome(entry, futurePrice, futureReturn, sign * (best - entry) / entry, sign * (worst - entry) / entry,
            deadline - entryTime, cost / entry, futureReturn - cost / entry, deadline, |rows|)
  }

  /** When an observation may be resolved at the earliest; an unknown horizon has no such moment. */
  function Deadline(subject: Subject): Option<int> {
    if Window(subject.horizon).Some? then Some(subject.timestamp + Window(subject.horizon).value) else None
  }

  /** The reasons to refuse, in the source's order; otherwise the rows of a window that reaches the deadline. */
  function Checked(subject: Subject, candles: seq<Row>, now: int): Result<seq<Row>, Refusal> {
    if SignOf(subject.side).None? then Err(NOT_DIRECTIONAL)
    else if subject.entryPrice.None? || subject.entryPrice.value <= 0.0 then Err(NO_ENTRY_PRICE)
    else if Deadline(subject).None? then Err(UNKNOWN_HORIZON)
    else if now < Deadline(subject).value then Err(HORIZON_NOT_REACHED)
    else
      var rows := SortBy(InWindow(candles, subject.timestamp, Deadline(subject).value), TimeOf);
      if rows == [] then Err(NO_FUTURE_DATA)
      else if rows[|rows| - 1].timestamp.GetOr(0) < Deadline(subject).value then Err(HORIZON_NOT_REACHED)
      else Ok(rows)
  }

  /** `resolve`, labels aside. */
  function Resolve(rules: CostRules, subject: Subject, candles: seq<Row>, now: int): Result<Outcome, Refusal> {
    match Checked(subject, candles, now)
    case Err(refusal) => Err(refusal)
    case Ok(rows) =>
      var deadline := Deadline(subject).value;
      var cost := TotalCost(rules, subject.spread.GetOr(0.0), deadline - subject.timestamp);
      Ok(Figures(SignOf(subject.side).value, subject.entryPrice.value, rows, cost, subject.timestamp, deadline))
  }

  // ------------------------------------------------------------------ no look-ahead

  lemma {:induction false} InWindowMembers(rows: seq<Row>, entryTime: int, deadline: int, row: Row)
    ensures row in InWindow(rows, entryTime, deadline) <==> row in rows && Inside(row, entryTime, deadline)
  {
    if rows != [] {
      InWindowMembers(rows[1..], entryTime, deadline, row);
      assert rows == [rows[0]] + rows[1..];
    }
  }

  lemma {:induction false} InWindowTwice(rows: seq<Row>, entryTime: int, deadline: int)
    ensures InWindow(InWindow(rows, entryTime, deadline), entryTime, deadline) == InWindow(rows, entryTime, deadline)
  {
    if rows != [] {
      InWindowTwice(rows[1..], entryTime, deadline);
      var rest := InWindow(rows[1..], entryTime, deadline);
      assert ([rows[0]] + rest)[1..] == rest;
    }
  }

  lemma SameWindowSameChecks(subject: Subject, candles: seq<Row>, others: seq<Row>, now: int)
    requires Deadline(subject).Some? ==>
      InWindow(candles, subject.timestamp, Deadline(subject).value)
         == InWindow(others, subject.timestamp, Deadline(subject).value)
    ensures Checked(subject, candles, now) == Checked(subject, others, now)
  {
  }

  /** A resolved outcome is never early, and does not depend on how late it is resolved. */
  lemma NeverEarlyNeverLate(rules: CostRules, subject: Subject, candles: seq<Row>, now: int, later: int)
    requires Resolve(rules, subject, candles, now).Ok?
    ensures Deadline(subject).Some? && Deadline(subject).value <= now
    ensures Deadline(subject).value <= later ==>
      Resolve(rules, subject, candles, later) == Resolve(rules, subject, candles, now)
    ensures later < Deadline(subject).value ==> Resolve(rules, subject, candles, later) == Err(HORIZON_NOT_REACHED)
  {
    assert Deadline(subject).value <= later ==> Checked(subject, candles, later) == Checked(subject, candles, now);
  }

  /** The outcome depends on nothing but the candles after the entry and up to the deadline. */
  lemma OnlyTheWindowMatters(rules: CostRules, subject: Subject, candles: seq<Row>, now: int)
    requires Deadline(subject).Some?
    ensures Resolve(rules, subject, InWindow(candles, subject.timestamp, Deadline(subject).value), now)
         == Resolve(rules, subject, candles, now)
  {
    InWindowTwice(candles, subject.timestamp, Deadline(subject).value);
    SameWindowSameChecks(subject, candles, InWindow(candles, subject.timestamp, Deadline(subject).value), now);
  }

  lemma SortedMembers(window: seq<Row>)
    ensures SortedBy(SortBy(window, TimeOf), TimeOf)
    ensures multiset(SortBy(window, TimeOf)) == multiset(window) && |SortBy(window, TimeOf)| == |window|
  {
    SortByOrders(window, TimeOf);
  }

  lemma MemberIsInside(rows: seq<Row>, candles: seq<Row>, entryTime: int, deadline: int, row: Row)
    requires multiset(rows) == multiset(InWindow(candles, entryTime, deadline)) && row in rows
    ensures row in candles && Inside(row, entryTime, deadline)
  {
    SameMembers(rows, InWindow(candles, entryTime, deadline));
    InWindowMembers(candles, entryTime, deadline, row);
  }

  lemma LastInside(subject: Subject, candles: seq<Row>, now: int, rows: seq<Row>)
    requires Checked(subject, candles, now) == Ok(rows)
    ensures rows != [] && rows[|rows| - 1] in candles && rows[|rows| - 1].timestamp == Deadline(subject)
  {
    var deadline := Deadline(subject).value;
    SortedMembers(InWindow(candles, subject.timestamp, deadline));
    assert rows[|rows| - 1] in rows;
    MemberIsInside(rows, candles, subject.timestamp, deadline, rows[|rows| - 1]);
  }

  // ----------------------------------------------------------------- the excursions

  lemma {:induction false} ExtremesBound(rows: seq<Row>, i: nat)
    requires i < |rows|
    ensures HighOf(rows[i]) <= Highest(rows) && Lowest(rows) <= LowOf(rows[i])
  {
    if i > 0 { ExtremesBound(rows[1..], i - 1); }
  }

  lemma ScaledOrder(sign: real, x: real, y: real, entry: real)
    requires entry > 0.0 && sign * x <= sign * y
    ensures sign * (x - entry) / entry <= sign * (y - entry) / entry
  {
    var a, b := sign * (x - entry), sign * (y - entry);
    assert a <= b;
    FactorOrder(entry, a, b);
    assert a * entry == entry * a && b * entry == entry * b;
    MeansCompare(a, entry, b, entry);
  }

  predicate ReturnWithinExcursions(o: Outcome) { o.mae <= o.futureReturn <= o.mfe }

  lemma FiguresOrdered(sign: real, entry: real, rows: seq<Row>, cost: real, entryTime: int, deadline: int)
    requires rows != [] && entry > 0.0 && (sign == 1.0 || sign == -1.0)
    requires Lowest(rows) <= rows[|rows| - 1].close <= Highest(rows)
    ensures ReturnWithinExcursions(Figures(sign, entry, rows, cost, entryTime, deadline))
  {
    var close := rows[|rows| - 1].close;
    var best := if sign > 0.0 then Highest(rows) else Lowest(rows);
    var worst := if sign > 0.0 then Lowest(rows) else Highest(rows);
    ScaledOrder(sign, worst, close, entry);
    ScaledOrder(sign, close, best, entry);
  }

  ghost predicate ValidRows(rows: seq<Row>) { forall row | row in rows :: LowOf(row) <= row.close <= HighOf(row) }

  lemma CloseWithinExtremes(subject: Subject, candles: seq<Row>, now: int, rows: seq<Row>)
    requires Checked(subject, candles, now) == Ok(rows) && ValidRows(candles)
    ensures rows != [] && Lowest(rows) <= rows[|rows| - 1].close <= Highest(rows)
  {
    LastInside(subject, candles, now, rows);
    ExtremesBound(rows, |rows| - 1);
  }

  /** With candles whose close lies between low and high, the return lies between the two excursions. */
  lemma ReturnBetweenExcursions(rules: CostRules, subject: Subject, candles: seq<Row>, now: int)
    requires Resolve(rules, subject, candles, now).Ok? && ValidRows(candles)
    ensures ReturnWithinExcursions(Resolve(rules, subject, candles, now).value)
  {
    var rows, deadline := Checked(subject, candles, now).value, Deadline(subject).value;
    CloseWithinExtremes(subject, candles, now, rows);
    FiguresOrdered(SignOf(subject.side).value, subject.entryPrice.value, rows,
                   TotalCost(rules, subject.spread.GetOr(0.0), deadline - subject.timestamp),
                   subject.timestamp, deadline);
  }

  // --------------------------------------------------------------------- the mirror

  function Opposite(side: Side): Side {
    match side
    case BUY => SELL
    case LONG => SHORT
    case SELL => BUY
    case SHORT => LONG
    case OTHER => OTHER
  }

  predicate Mirrors(a: Outcome, b: Outcome) {
    && b.futureReturn == -a.futureReturn && b.mfe == -a.mae && b.mae == -a.mfe
    && a.estimatedCost == b.estimatedCost && a.net + b.net == -(a.estimatedCost + b.estimatedCost)
    && a.futurePrice == b.futurePrice && a.bars == b.bars && a.resolvedAt == b.resolvedAt
  }

  lemma MirrorFigures(entry: real, rows: seq<Row>, cost: real, entryTime: int, deadline: int)
    requires rows != [] && entry > 0.0
    ensures Mirrors(Figures(1.0, entry, rows, cost, entryTime, deadline),
                    Figures(-1.0, entry, rows, cost, entryTime, deadline))
  {
    Negated(rows[|rows| - 1].close - entry, entry);
    Negated(Highest(rows) - entry, entry);
    Negated(Lowest(rows) - entry, entry);
  }

  lemma MirrorsBack(a: Outcome, b: Outcome)
    requires Mirrors(a, b)
    ensures Mirrors(b, a)
  {
  }

  lemma Negated(x: real, n: real)
    requires n > 0.0
    ensures -1.0 * x / n == -(1.0 * x / n)
  {
    assert -1.0 * x == -(1.0 * x);
    FractionsAdd(0.0, 1.0 * x, n);
  }

  /** Opposite sides mirror each other, and their nets add up to minus twice the cost: both pay it. */
  lemma SidesMirror(rules: CostRules, subject: Subject, candles: seq<Row>, now: int)
    ensures var a, b := Resolve(rules, subject, candles, now),
      Resolve(rules, subject.(side := Opposite(subject.side)), candles, now);
      if a.Ok? then b.Ok? && Mirrors(a.value, b.value) else a == b
  {
    var opposite := subject.(side := Opposite(subject.side));
    assert Deadline(opposite) == Deadline(subject) && Checked(opposite, candles, now) == Checked(subject, candles, now);
    if Checked(subject, candles, now).Ok? {
      var rows, deadline, entry := Checked(subject, candles, now).value, Deadline(subject).value,
        subject.entryPrice.value;
      var cost := TotalCost(rules, subject.spread.GetOr(0.0), deadline - subject.timestamp);
      var up := Figures(1.0, entry, rows, cost, subject.timestamp, deadline);
      var down := Figures(-1.0, entry, rows, cost, subject.timestamp, deadline);
      MirrorFigures(entry, rows, cost, subject.timestamp, deadline);
      MirrorsBack(up, down);
      assert Resolve(rules, subject, candles, now).value == if SignOf(subject.side).value == 1.0 then up else down;
      assert Resolve(rules, opposite, candles, now).value == if SignOf(subject.side).value == 1.0 then down else up;
    }
  }

  /** The net is never above the gross, whatever the signs of the spread and of the configured costs. */
  lemma NetIsNeverAboveGross(rules: CostRules, subject: Subject, candles: seq<Row>, now: int)
    requires Resolve(rules, subject, candles, now).Ok?
    ensures var o := Resolve(rules, subject, candles, now).value;
      o.net <= o.futureReturn && o.net + o.estimatedCost == o.futureReturn
  {
    var holding := Deadline(subject).value - subject.timestamp;
    DivisionCompare(TotalCost(rules, subject.spread.GetOr(0.0), holding), subject.entryPrice.value, 0.0);
  }

  // ------------------------------------------------------------ the order of candles

  ghost predicate SameCloseAt(rows: seq<Row>, t: int) {
    forall a, b | a in rows && b in rows && a.timestamp == Some(t) && b.timestamp == Some(t) :: a.close == b.close
  }

  lemma {:induction false} LastOfSorted(rows: seq<Row>, k: real)
    requires rows != [] && TimeOf(rows[|rows| - 1]) == k
    ensures var at := WithKey(rows, TimeOf, k); at != [] && at[|at| - 1] == rows[|rows| - 1]
  {
    if |rows| > 1 { LastOfSorted(rows[1..], k); }
  }

  /** The future price is the close of a candle at the deadline, and every candle of the window counts once. */
  lemma OutcomeIsOfTheDeadline(rules: CostRules, subject: Subject, candles: seq<Row>, now: int)
    requires Resolve(rules, subject, candles, now).Ok?
    ensures var o, window := Resolve(rules, subject, candles, now).value, Window(subject.horizon);
      && window.Some? && o.holdingTime == window.value && o.resolvedAt == subject.timestamp + window.value
      && o.bars == |InWindow(candles, subject.timestamp, o.resolvedAt)|
      && exists row :: row in candles && row.timestamp == Some(o.resolvedAt) && row.close == o.futurePrice
  {
    var rows, deadline := Checked(subject, candles, now).value, Deadline(subject).value;
    LastInside(subject, candles, now, rows);
    SortedMembers(InWindow(candles, subject.timestamp, deadline));
    assert rows[|rows| - 1] in candles;
  }

  lemma {:induction false} WithKeySnoc(rows: seq<Row>, row: Row, k: real)
    ensures WithKey(rows + [row], TimeOf, k) == WithKey(rows, TimeOf, k) + if TimeOf(row) == k then [row] else []
  {
    if rows == [] {
      assert rows + [row] == [row];
    } else {
      var rest := rows[1..];
      WithKeySnoc(rest, row, k);
      WithKeyCons(rows[0], rest, TimeOf, k);
      WithKeyCons(rows[0], rest + [row], TimeOf, k);
      assert rows + [row] == [rows[0]] + (rest + [row]) && rows == [rows[0]] + rest;
    }
  }

  lemma {:induction false} InWindowSnoc(rows: seq<Row>, row: Row, entryTime: int, deadline: int)
    requires Inside(row, entryTime, deadline)
    ensures InWindow(rows + [row], entryTime, deadline) == InWindow(rows, entryTime, deadline) + [row]
  {
    if rows == [] {
      assert rows + [row] == [row];
    } else {
      assert (rows + [row])[1..] == rows[1..] + [row];
      InWindowSnoc(rows[1..], row, entryTime, deadline);
    }
  }

  lemma {:induction false} InWindowCounts(rows: seq<Row>, entryTime: int, deadline: int, row: Row)
    ensures multiset(InWindow(rows, entryTime, deadline))[row]
         == if Inside(row, entryTime, deadline) then multiset(rows)[row] else 0
  {
    if rows != [] {
      InWindowCounts(rows[1..], entryTime, deadline, row);
      assert rows == [rows[0]] + rows[1..];
    }
  }

  lemma {:induction false} ExtremesAttained(rows: seq<Row>)
    requires rows != []
    ensures exists row :: row in rows && HighOf(row) == Highest(rows)
    ensures exists row :: row in rows && LowOf(row) == Lowest(rows)
  {
    assert rows[0] in rows;
    if |rows| > 1 {
      ExtremesAttained(rows[1..]);
      var h :| h in rows[1..] && HighOf(h) == Highest(rows[1..]);
      var l :| l in rows[1..] && LowOf(l) == Lowest(rows[1..]);
      assert h in rows && l in rows;
    }
  }

  lemma ExtremesAtMost(a: seq<Row>, b: seq<Row>)
    requires a != [] && b != [] && forall row :: row in a ==> row in b
    ensures Highest(a) <= Highest(b) && Lowest(b) <= Lowest(a)
  {
    ExtremesAttained(a);
    var h :| h in a && HighOf(h) == Highest(a);
    var l :| l in a && LowOf(l) == Lowest(a);
    var i :| 0 <= i < |b| && b[i] == h;
    var j :| 0 <= j < |b| && b[j] == l;
    ExtremesBound(b, i);
    ExtremesBound(b, j);
  }

  lemma WindowsPermute(a: seq<Row>, b: seq<Row>, entryTime: int, deadline: int)
    requires multiset(a) == multiset(b)
    ensures multiset(InWindow(a, entryTime, deadline)) == multiset(InWindow(b, entryTime, deadline))
  {
    forall row
      ensures multiset(InWindow(a, entryTime, deadline))[row] == multiset(InWindow(b, entryTime, deadline))[row]
    {
      InWindowCounts(a, entryTime, deadline, row);
      InWindowCounts(b, entryTime, deadline, row);
    }
  }

  lemma SortedAt(window: seq<Row>, k: real)
    ensures WithKey(SortBy(window, TimeOf), TimeOf, k) == WithKey(window, TimeOf, k)
  {
    SortByIsStable(window, TimeOf, k);
  }

  lemma LatestIsSame(x: seq<Row>, y: seq<Row>)
    requires x != [] && y != [] && SortedBy(y, TimeOf) && forall row :: row in x ==> row in y
    ensures TimeOf(x[|x| - 1]) <= TimeOf(y[|y| - 1])
  {
    assert x[|x| - 1] in x;
    var i :| 0 <= i < |y| && y[i] == x[|x| - 1];
    assert TimeOf(y[i]) <= TimeOf(y[|y| - 1]);
  }

  lemma SameEnds(x: seq<Row>, y: seq<Row>)
    requires multiset(x) == multiset(y) && x != [] && y != [] && SortedBy(x, TimeOf) && SortedBy(y, TimeOf)
    ensures Highest(x) == Highest(y) && Lowest(x) == Lowest(y)
    ensures TimeOf(x[|x| - 1]) == TimeOf(y[|y| - 1])
  {
    SameMembers(x, y);
    ExtremesAtMost(x, y);
    ExtremesAtMost(y, x);
    LatestIsSame(x, y);
    LatestIsSame(y, x);
  }

  lemma SameSize(x: seq<Row>, y: seq<Row>)
    requires multiset(x) == multiset(y)
    ensures |x| == |y|
  {
    assert |x| == |multiset(x)| && |y| == |multiset(y)|;
  }

  lemma SortedAlike(wa: seq<Row>, wb: seq<Row>)
    requires multiset(wa) == multiset(wb) && SortBy(wa, TimeOf) != []
    ensures var x, y := SortBy(wa, TimeOf), SortBy(wb, TimeOf);
      |x| == |y| && Highest(x) == Highest(y) && Lowest(x) == Lowest(y) && TimeOf(x[|x| - 1]) == TimeOf(y[|y| - 1])
  {
    SortedMembers(wa);
    SortedMembers(wb);
    SameSize(SortBy(wa, TimeOf), SortBy(wb, TimeOf));
    SameEnds(SortBy(wa, TimeOf), SortBy(wb, TimeOf));
  }

  /** Whether rows would be looked at all. */
  predicate Admissible(subject: Subject, now: int) {
    && SignOf(subject.side).Some? && subject.entryPrice.Some? && subject.entryPrice.value > 0.0
    && Deadline(subject).Some? && now >= Deadline(subject).value
  }

  /** The rows of a window, and whether they reach its deadline. */
  predicate ReachesDeadline(rows: seq<Row>, deadline: int) {
    rows != [] && rows[|rows| - 1].timestamp.GetOr(0) >= deadline
  }

  lemma CheckedRows(subject: Subject, candles: seq<Row>, now: int) returns (rows: seq<Row>)
    requires Admissible(subject, now)
    ensures rows == SortBy(InWindow(candles, subject.timestamp, Deadline(subject).value), TimeOf)
    ensures Checked(subject, candles, now).Ok? <==> ReachesDeadline(rows, Deadline(subject).value)
    ensures Checked(subject, candles, now).Ok? ==> Checked(subject, candles, now).value == rows
  {
    rows := SortBy(InWindow(candles, subject.timestamp, Deadline(subject).value), TimeOf);
  }

  /** The rows of a window in two orders: the same extremes and count, and both end at the deadline. */
  lemma ReorderedRows(subject: Subject, a: seq<Row>, b: seq<Row>, now: int)
    requires multiset(a) == multiset(b) && Checked(subject, a, now).Ok?
    ensures Checked(subject, b, now).Ok?
    ensures var x, y := Checked(subject, a, now).value, Checked(subject, b, now).value;
      |x| == |y| && |x| > 0 && Highest(x) == Highest(y) && Lowest(x) == Lowest(y)
  {
    var entryTime, deadline := subject.timestamp, Deadline(subject).value;
    WindowsPermute(a, b, entryTime, deadline);
    var x := CheckedRows(subject, a, now);
    var y := CheckedRows(subject, b, now);
    SortedAlike(InWindow(a, entryTime, deadline), InWindow(b, entryTime, deadline));
  }

  lemma LastRow(subject: Subject, candles: seq<Row>, now: int)
    requires Checked(subject, candles, now).Ok?
    ensures var rows, deadline := Checked(subject, candles, now).value, Deadline(subject).value;
      var at := WithKey(InWindow(candles, subject.timestamp, deadline), TimeOf, deadline as real);
      && rows != [] && at != [] && at[|at| - 1] == rows[|rows| - 1]
      && rows[|rows| - 1] in candles && rows[|rows| - 1].timestamp == Some(deadline)
  {
    var rows, deadline := Checked(subject, candles, now).value, Deadline(subject).value;
    LastInside(subject, candles, now, rows);
    LastOfSorted(rows, deadline as real);
    SortedAt(InWindow(candles, subject.timestamp, deadline), deadline as real);
  }

  lemma RowToEnd(candles: seq<Row>, row: Row) returns (rest: seq<Row>)
    requires row in candles
    ensures multiset(rest + [row]) == multiset(candles)
  {
    var i :| 0 <= i < |candles| && candles[i] == row;
    rest := candles[..i] + candles[i + 1..];
    assert candles == candles[..i] + [row] + candles[i + 1..];
  }

  lemma LastWithKey(rest: seq<Row>, row: Row, entryTime: int, deadline: int)
    requires row.timestamp == Some(deadline) && entryTime < deadline
    ensures var at := WithKey(InWindow(rest + [row], entryTime, deadline), TimeOf, deadline as real);
      at != [] && at[|at| - 1] == row
  {
    InWindowSnoc(rest, row, entryTime, deadline);
    WithKeySnoc(InWindow(rest, entryTime, deadline), row, deadline as real);
  }

  /** Moving a row at the deadline to the end makes its close the future price. */
  lemma MoveToEnd(subject: Subject, candles: seq<Row>, now: int, row: Row) returns (moved: seq<Row>)
    requires Checked(subject, candles, now).Ok? && row in candles && row.timestamp == Deadline(subject)
    ensures multiset(moved) == multiset(candles) && Checked(subject, moved, now).Ok?
    ensures var rows := Checked(subject, moved, now).value; rows != [] && rows[|rows| - 1] == row
  {
    var rest := RowToEnd(candles, row);
    moved := rest + [row];
    ReorderedRows(subject, candles, moved, now);
    LastWithKey(rest, row, subject.timestamp, Deadline(subject).value);
    LastRow(subject, moved, now);
  }

  lemma ReorderedResult(rules: CostRules, subject: Subject, a: seq<Row>, b: seq<Row>, now: int)
    requires multiset(a) == multiset(b) && Resolve(rules, subject, a, now).Ok?
    ensures Resolve(rules, subject, b, now).Ok?
    ensures Resolve(rules, subject, b, now) == Resolve(rules, subject, a, now) <==>
      Resolve(rules, subject, b, now).value.futurePrice == Resolve(rules, subject, a, now).value.futurePrice
  {
    ReorderedRows(subject, a, b, now);
    SamePriceSameFigures(
      SignOf(subject.side).value, subject.entryPrice.value,
      Checked(subject, a, now).value, Checked(subject, b, now).value,
      TotalCost(rules, subject.spread.GetOr(0.0), Deadline(subject).value - subject.timestamp),
      subject.timestamp, Deadline(subject).value);
  }

  lemma SamePriceSameFigures(
    sign: real, entry: real, x: seq<Row>, y: seq<Row>, cost: real, entryTime: int, deadline: int)
    requires x != [] && y != [] && entry > 0.0
    requires |x| == |y| && Highest(x) == Highest(y) && Lowest(x) == Lowest(y)
    ensures Figures(sign, entry, x, cost, entryTime, deadline) == Figures(sign, entry, y, cost, entryTime, deadline)
      <==> x[|x| - 1].close == y[|y| - 1].close
  {
  }

  /**
   * The order in which the candles are given never matters exactly when all candles stamped at
   * the deadline agree on the close; one candle per instant is the usual case.
   */
  lemma OrderNeverMattersIff(rules: CostRules, subject: Subject, candles: seq<Row>, now: int)
    requires Resolve(rules, subject, candles, now).Ok?
    ensures Deadline(subject).Some?
    ensures (forall b: seq<Row> :: multiset(b) == multiset(candles) ==>
              Resolve(rules, subject, b, now) == Resolve(rules, subject, candles, now))
      <==> SameCloseAt(candles, Deadline(subject).value)
  {
    var deadline := Deadline(subject).value;
    LastRow(subject, candles, now);
    if SameCloseAt(candles, deadline) {
      forall b: seq<Row> | multiset(b) == multiset(candles)
        ensures Resolve(rules, subject, b, now) == Resolve(rules, subject, candles, now)
      {
        ReorderedResult(rules, subject, candles, b, now);
        LastRow(subject, b, now);
        SameMembers(b, candles);
      }
    } else {
      var x, y :| x in candles && y in candles && x.timestamp == Some(deadline) && y.timestamp == Some(deadline)
        && x.close != y.close;
      var row := if x.close != Resolve(rules, subject, candles, now).value.futurePrice then x else y;
      var moved := MoveToEnd(subject, candles, now, row);
      ReorderedResult(rules, subject, candles, moved, now);
      assert Resolve(rules, subject, moved, now).value.futurePrice == row.close;
    }
  }

  /** Two candles at the deadline with different closes: their order decides the outcome. */
  lemma OrderMatters(rules: CostRules)
    ensures var subject := Subject(BUY, Some(1.0), Horizon.M5, 0, None);
      var a, b := Row(Some(5 * MINUTE), 1.0, None, None), Row(Some(5 * MINUTE), 2.0, None, None);
      var x, y := Resolve(rules, subject, [a, b], 5 * MINUTE), Resolve(rules, subject, [b, a], 5 * MINUTE);
      x.Ok? && y.Ok? && x.value.futurePrice == 2.0 && y.value.futurePrice == 1.0
  {
    var subject := Subject(BUY, Some(1.0), Horizon.M5, 0, None);
    var a, b := Row(Some(5 * MINUTE), 1.0, None, None), Row(Some(5 * MINUTE), 2.0, None, None);
    BothAtDeadline(subject, a, b, 5 * MINUTE);
    BothAtDeadline(subject, b, a, 5 * MINUTE);
  }

  lemma BothAtDeadline(subject: Subject, a: Row, b: Row, now: int)
    requires Admissible(subject, now)
    requires a.timestamp == Deadline(subject) && b.timestamp == Deadline(subject)
    ensures Checked(subject, [a, b], now) == Ok([a, b])
  {
    var deadline := Deadline(subject).value;
    assert [a, b][1..] == [b] && [b][1..] == [];
    assert InWindow([b], subject.timestamp, deadline) == [b];
    assert InWindow([a, b], subject.timestamp, deadline) == [a, b];
    assert SortBy([b], TimeOf) == [b];
    assert SortBy([a, b], TimeOf) == [a, b];
  }
}
