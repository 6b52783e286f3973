/** The constrained averaging-down simulator (backtest/dca.py). */
module DcaLadder {
  import opened Prelude
  import opened Directions

  datatype RawConfig = RawConfig(
    maximumEntries: int,
    maximumExposure: real,
    distanceBetweenEntries: real,
    maximumDrawdown: real)

  /** The limits that `DCAConfig` accepts. */
  predicate ValidConfig(c: RawConfig) {
    && c.maximumEntries >= 1 && c.maximumExposure > 0.0 && c.distanceBetweenEntries > 0.0
    && 0.0 < c.maximumDrawdown < 1.0
  }

  type Config = c: RawConfig | ValidConfig(c) witness RawConfig(3, 3.0, 0.001, 0.02)

  datatype Entry = Entry(timestamp: int, price: real, size: real, reason: string)

  datatype Evaluation = Evaluation(timestamp: int, price: real, pnl: real, drawdown: real, reason: string)

  datatype Trade = Trade(
    entryTime: int, entryPrice: real, exitTime: int, exitPrice: real, direction: Direction, size: real,
    pnl: real, drawdown: real, reason: string, counterTrend: bool, entries: seq<Entry>, evaluations: seq<Evaluation>)

  function Exposure(entries: seq<Entry>): real {
    if entries == [] then 0.0 else Exposure(entries[..|entries| - 1]) + entries[|entries| - 1].size
  }

  function Cost(entries: seq<Entry>): real {
    if entries == [] then 0.0
    else
      var last := entries[|entries| - 1];
      Cost(entries[..|entries| - 1]) + last.price * last.size
  }

  ghost predicate Sized(entries: seq<Entry>) { forall i | 0 <= i < |entries| :: entries[i].size > 0.0 }

  lemma {:induction false} ExposurePositive(entries: seq<Entry>)
    requires Sized(entries) && entries != []
    ensures Exposure(entries) > 0.0
  {
    if |entries| > 1 { ExposurePositive(entries[..|entries| - 1]); }
  }

  function AveragePrice(entries: seq<Entry>): real
    requires Exposure(entries) > 0.0
  {
    Cost(entries) / Exposure(entries)
  }

  /** How far the price has moved against the position since the reference price. */
  function Adverse(direction: Direction, reference: real, price: real): real {
    if direction == LONG then reference - price else price - reference
  }

  function Pnl(direction: Direction, entries: seq<Entry>, price: real): real
    requires Exposure(entries) > 0.0
  {
    Sign(direction) * (price - AveragePrice(entries)) * Exposure(entries)
  }

  function DrawdownFraction(direction: Direction, entries: seq<Entry>, price: real): real
    requires Exposure(entries) > 0.0
  {
    var average := AveragePrice(entries);
    if average != 0.0 then Max(0.0, Adverse(direction, average, price)) / average else 0.0
  }

  /** The tests of `consider_entry`, in the source's order. */
  predicate Accepts(config: Config, direction: Direction, closed: bool, entries: seq<Entry>, price: real, size: real)
    requires entries != [] && Exposure(entries) > 0.0
  {
    && !closed && |entries| < config.maximumEntries
    && size > 0.0 && Exposure(entries) + size <= config.maximumExposure
    && DrawdownFraction(direction, entries, price) < config.maximumDrawdown
    && Adverse(direction, entries[|entries| - 1].price, price) >= config.distanceBetweenEntries
  }

  function WorstSeen(evaluations: seq<Evaluation>): real {
    if evaluations == [] then 0.0
    else Max(WorstSeen(evaluations[..|evaluations| - 1]), evaluations[|evaluations| - 1].drawdown)
  }

  // ------------------------------------------------------------------ the ladder

  /** Each entry lies at least one distance beyond the previous one, against the position. */
  ghost predicate Spaced(config: Config, direction: Direction, entries: seq<Entry>) {
    forall i | 0 < i < |entries| ::
      Adverse(direction, entries[i - 1].price, entries[i].price) >= config.distanceBetweenEntries
  }

  ghost predicate Ladder(config: Config, direction: Direction, entries: seq<Entry>) {
    && 1 <= |entries| <= config.maximumEntries
    && Sized(entries) && Exposure(entries) <= config.maximumExposure
    && Spaced(config, direction, entries)
  }

  class SimulatedPosition {
    const config: Config
    const entryTime: int
    const direction: Direction
    const counterTrend: bool
    var entries: seq<Entry>
    var evaluations: seq<Evaluation>
    var maximumDrawdownSeen: real
    var closed: bool

    ghost predicate Valid()
      reads this
    {
      Ladder(config, direction, entries) && maximumDrawdownSeen == WorstSeen(evaluations)
    }

    /** The record that `open` builds once it has accepted the size. */
    constructor (
      config: Config, timestamp: int, price: real, direction: Direction, size: real, counterTrend: bool, reason: string)
      requires 0.0 < size <= config.maximumExposure
      ensures Valid() && this.config == config && this.direction == direction && this.entryTime == timestamp
      ensures this.counterTrend == counterTrend && entries == [Entry(timestamp, price, size, reason)]
      ensures evaluations == [] && !closed
    {
      this.config, this.entryTime, this.direction, this.counterTrend := config, timestamp, direction, counterTrend;
      entries := [Entry(timestamp, price, size, reason)];
      evaluations, maximumDrawdownSeen, closed := [], 0.0, false;
    }

    /** `DCASimulator.open`: refuses a size outside the limits; notes a trade against the higher timeframe. */
    static method Open(
      config: Config, timestamp: int, price: real, direction: Direction, size: real,
      bearishBias: bool, bullishBias: bool, reason: string)
      returns (position: SimulatedPosition?)
      ensures position == null <==> size <= 0.0 || size > config.maximumExposure
      ensures position != null ==> fresh(position) && position.Valid()
      ensures position != null ==> position.config == config && position.direction == direction
      ensures position != null ==> position.entries == [Entry(timestamp, price, size, reason)] && !position.closed
      ensures position != null ==> position.counterTrend == if direction == LONG then bearishBias else bullishBias
    {
      if size <= 0.0 || size > config.maximumExposure { return null; }
      var counter := (direction == LONG && bearishBias) || (direction == SHORT && bullishBias);
      position := new SimulatedPosition(config, timestamp, price, direction, size, counter, reason);
    }

    method ConsiderEntry(timestamp: int, price: real, size: real, reason: string) returns (accepted: bool)
      requires Valid()
      modifies this`entries
      ensures Valid()
      ensures old(entries) != [] && Exposure(old(entries)) > 0.0
      ensures accepted == Accepts(config, direction, closed, old(entries), price, size)
      ensures entries == if accepted then old(entries) + [Entry(timestamp, price, size, reason)] else old(entries)
    {
      ExposurePositive(entries);
      if closed || |entries| >= config.maximumEntries { return false; }
      if size <= 0.0 || Exposure(entries) + size > config.maximumExposure { return false; }
      if DrawdownFraction(direction, entries, price) >= config.maximumDrawdown { return false; }
      var lastPrice := entries[|entries| - 1].price;
      var adverseDistance := if direction == LONG then lastPrice - price else price - lastPrice;
      if adverseDistance < config.distanceBetweenEntries { return false; }
      LadderGrows(config, direction, closed, entries, Entry(timestamp, price, size, reason));
      entries := entries + [Entry(timestamp, price, size, reason)];
      return true;
    }

    method Mark(timestamp: int, price: real, reason: string)
      requires Valid()
      modifies this`evaluations, this`maximumDrawdownSeen
      ensures Valid()
      ensures Exposure(entries) > 0.0
      ensures var drawdown := DrawdownFraction(direction, entries, price);
        evaluations
        == old(evaluations) + [Evaluation(timestamp, price, Pnl(direction, entries, price), drawdown, reason)]
    {
      ExposurePositive(entries);
      var drawdown := DrawdownFraction(direction, entries, price);
      maximumDrawdownSeen := Max(maximumDrawdownSeen, drawdown);
      evaluations := evaluations + [Evaluation(timestamp, price, Pnl(direction, entries, price), drawdown, reason)];
      assert evaluations[..|evaluations| - 1] == old(evaluations);
    }

    /** Closing marks once more and reports the profit of every leg, whatever the average says. */
    method Close(timestamp: int, price: real, reason: string) returns (trade: Trade)
      requires Valid()
      modifies this`evaluations, this`maximumDrawdownSeen, this`closed
      ensures Valid() && closed
      ensures trade.pnl == LegPnl(direction, entries, price) && trade.size == Exposure(entries)
      ensures trade.drawdown == WorstSeen(evaluations) && trade.evaluations == evaluations && trade.entries == entries
      ensures |evaluations| == |old(evaluations)| + 1 && evaluations[..|evaluations| - 1] == old(evaluations)
      ensures trade.entryPrice == entries[0].price && trade.exitPrice == price && trade.direction == direction
      ensures trade.entryTime == entryTime && trade.exitTime == timestamp && trade.counterTrend == counterTrend
    {
      Mark(timestamp, price, reason);
      closed := true;
      PnlIsSumOfLegs(direction, entries, price);
      return Trade(entryTime, entries[0].price, timestamp, price, direction, Exposure(entries),
                   Pnl(direction, entries, price), maximumDrawdownSeen, reason, counterTrend, entries, evaluations);
    }
  }

  lemma LadderGrows(config: Config, direction: Direction, closed: bool, entries: seq<Entry>, entry: Entry)
    requires Ladder(config, direction, entries) && Exposure(entries) > 0.0
    requires Accepts(config, direction, closed, entries, entry.price, entry.size)
    ensures Ladder(config, direction, entries + [entry])
  {
    assert (entries + [entry])[..|entries|] == entries;
  }

  // ------------------------------------------------------------ what a ladder is

  /** The first and the last of k entries lie at least k - 1 distances apart. */
  lemma {:induction false} LadderDepth(config: Config, direction: Direction, entries: seq<Entry>)
    requires entries != [] && Spaced(config, direction, entries)
    ensures Adverse(direction, entries[0].price, entries[|entries| - 1].price)
         >= (|entries| - 1) as real * config.distanceBetweenEntries
  {
    var n := |entries|;
    if n > 1 {
      LadderDepth(config, direction, entries[..n - 1]);
      var d := config.distanceBetweenEntries;
      assert (n - 1) as real * d == (n - 2) as real * d + d;
    }
  }

  /** Entries of a ladder lie between the first and the last one. */
  lemma {:induction false} EntriesBetween(config: Config, direction: Direction, entries: seq<Entry>, i: nat)
    requires Spaced(config, direction, entries) && i < |entries|
    ensures Adverse(direction, entries[0].price, entries[i].price) >= 0.0
    ensures Adverse(direction, entries[i].price, entries[|entries| - 1].price) >= 0.0
  {
    if |entries| > 1 {
      var last := |entries| - 1;
      if i < last {
        EntriesBetween(config, direction, entries[..last], i);
      } else {
        EntriesBetween(config, direction, entries[..last], last - 1);
      }
    }
  }

  lemma CostStep(low: real, high: real, e: real, c: real, price: real, size: real)
    requires low * e <= c <= high * e && low <= price <= high && size > 0.0
    ensures low * (e + size) <= c + price * size <= high * (e + size)
  {
    FactorOrder(size, low, price);
    FactorOrder(size, price, high);
    assert low * (e + size) == low * e + size * low && high * (e + size) == high * e + size * high;
    assert price * size == size * price;
  }

  lemma {:induction false} CostBetween(entries: seq<Entry>, low: real, high: real) returns (e: real, c: real)
    requires Sized(entries) && forall i | 0 <= i < |entries| :: low <= entries[i].price <= high
    ensures e == Exposure(entries) && c == Cost(entries) && low * e <= c <= high * e
  {
    if entries == [] {
      e, c := 0.0, 0.0;
    } else {
      var last := entries[|entries| - 1];
      e, c := CostBetween(entries[..|entries| - 1], low, high);
      CostStep(low, high, e, c, last.price, last.size);
      e, c := e + last.size, c + last.price * last.size;
    }
  }

  /** The average price lies between the first entry and the last one. */
  lemma AverageWithinLadder(config: Config, direction: Direction, entries: seq<Entry>)
    requires Ladder(config, direction, entries)
    ensures Exposure(entries) > 0.0
    ensures Adverse(direction, entries[0].price, AveragePrice(entries)) >= 0.0
    ensures Adverse(direction, AveragePrice(entries), entries[|entries| - 1].price) >= 0.0
  {
    ExposurePositive(entries);
    var first, last := entries[0].price, entries[|entries| - 1].price;
    var low, high := if direction == LONG then last else first, if direction == LONG then first else last;
    forall i | 0 <= i < |entries| ensures low <= entries[i].price <= high {
      EntriesBetween(config, direction, entries, i);
    }
    var e, c := CostBetween(entries, low, high);
    DivisionCompare(c, e, low);
    DivisionCompare(c, e, high);
  }

  /** The profit of each leg on its own, added up. */
  function LegPnl(direction: Direction, entries: seq<Entry>, price: real): real {
    if entries == [] then 0.0
    else
      var last := entries[|entries| - 1];
      LegPnl(direction, entries[..|entries| - 1], price) + Sign(direction) * (price - last.price) * last.size
  }

  lemma {:induction false} LegPnlIsNetOfCost(direction: Direction, entries: seq<Entry>, price: real)
    ensures LegPnl(direction, entries, price) == Sign(direction) * (price * Exposure(entries) - Cost(entries))
  {
    if entries != [] {
      var last := entries[|entries| - 1];
      LegPnlIsNetOfCost(direction, entries[..|entries| - 1], price);
      assert (price - last.price) * last.size == price * last.size - last.price * last.size;
    }
  }

  /** Profit from the average price is the sum of the legs' profits. */
  lemma PnlIsSumOfLegs(direction: Direction, entries: seq<Entry>, price: real)
    requires Sized(entries) && entries != []
    ensures Exposure(entries) > 0.0
    ensures Pnl(direction, entries, price) == LegPnl(direction, entries, price)
  {
    ExposurePositive(entries);
    LegPnlIsNetOfCost(direction, entries, price);
    var e, a := Exposure(entries), AveragePrice(entries);
    assert a * e == Cost(entries);
    assert (price - a) * e == price * e - a * e;
  }

  // --------------------------------------------------------------- over every run

  datatype Request = Request(timestamp: int, price: real, size: real, reason: string)

  function Consider(config: Config, direction: Direction, entries: seq<Entry>, request: Request): seq<Entry>
    requires entries != [] && Exposure(entries) > 0.0
  {
    if Accepts(config, direction, false, entries, request.price, request.size)
    then entries + [Entry(request.timestamp, request.price, request.size, request.reason)]
    else entries
  }

  /** The ladder after a run of requests on an open position. */
  ghost function Climb(config: Config, direction: Direction, entries: seq<Entry>, requests: seq<Request>): seq<Entry>
    requires Ladder(config, direction, entries)
    decreases |requests|
  {
    if requests == [] then entries
    else
      ExposurePositive(entries);
      var next := Consider(config, direction, entries, requests[0]);
      ConsiderKeepsLadder(config, direction, entries, requests[0]);
      Climb(config, direction, next, requests[1..])
  }

  lemma ConsiderKeepsLadder(config: Config, direction: Direction, entries: seq<Entry>, request: Request)
    requires Ladder(config, direction, entries)
    ensures Exposure(entries) > 0.0
    ensures Ladder(config, direction, Consider(config, direction, entries, request))
  {
    ExposurePositive(entries);
    if Accepts(config, direction, false, entries, request.price, request.size) {
      LadderGrows(config, direction, false, entries,
                  Entry(request.timestamp, request.price, request.size, request.reason));
    }
  }

  /** Every run keeps the ladder, only adds to it, and never rewrites an entry. */
  lemma {:induction false} ClimbKeepsLadder(
    config: Config, direction: Direction, entries: seq<Entry>, requests: seq<Request>)
    requires Ladder(config, direction, entries)
    ensures entries <= Climb(config, direction, entries, requests)
    ensures Ladder(config, direction, Climb(config, direction, entries, requests))
    decreases |requests|
  {
    if requests != [] {
      ConsiderKeepsLadder(config, direction, entries, requests[0]);
      ClimbKeepsLadder(config, direction, Consider(config, direction, entries, requests[0]), requests[1..]);
    }
  }

  /** After any run the limits hold, the entries are spread, and the average lies within them. */
  lemma ClimbIsBounded(
    config: Config, direction: Direction, entries: seq<Entry>, requests: seq<Request>, after: seq<Entry>)
    requires Ladder(config, direction, entries)
    requires after == Climb(config, direction, entries, requests)
    ensures 1 <= |after| <= config.maximumEntries && 0.0 < Exposure(after) <= config.maximumExposure
    ensures Adverse(direction, after[0].price, after[|after| - 1].price)
         >= (|after| - 1) as real * config.distanceBetweenEntries
    ensures Adverse(direction, after[0].price, AveragePrice(after)) >= 0.0
    ensures Adverse(direction, AveragePrice(after), after[|after| - 1].price) >= 0.0
  {
    ClimbKeepsLadder(config, direction, entries, requests);
    LadderDepth(config, direction, after);
    AverageWithinLadder(config, direction, after);
  }

  // ------------------------------------------------------- when a ladder is complete

  ghost predicate CanGrow(config: Config, direction: Direction, entries: seq<Entry>)
    requires entries != [] && Exposure(entries) > 0.0
  {
    exists price: real, size: real :: Accepts(config, direction, false, entries, price, size)
  }

  /** One more distance beyond the last entry still loses less than the drawdown limit allows. */
  predicate DistanceFits(config: Config, direction: Direction, entries: seq<Entry>)
    requires entries != [] && Exposure(entries) > 0.0
  {
    var average := AveragePrice(entries);
    average > 0.0 ==>
      Adverse(direction, average, entries[|entries| - 1].price) + config.distanceBetweenEntries
      < config.maximumDrawdown * average
  }

  predicate HasRoom(config: Config, direction: Direction, entries: seq<Entry>)
    requires entries != [] && Exposure(entries) > 0.0
  {
    && |entries| < config.maximumEntries && Exposure(entries) < config.maximumExposure
    && DistanceFits(config, direction, entries)
  }

  /** The drawdown test without its division; an average that is not positive passes every price. */
  lemma DrawdownBelowIff(config: Config, direction: Direction, entries: seq<Entry>, price: real)
    requires Exposure(entries) > 0.0
    ensures var average := AveragePrice(entries);
      DrawdownFraction(direction, entries, price) < config.maximumDrawdown
      <==> (average > 0.0 ==> Adverse(direction, average, price) < config.maximumDrawdown * average)
  {
    var average, limit := AveragePrice(entries), config.maximumDrawdown;
    var loss := Max(0.0, Adverse(direction, average, price));
    if average > 0.0 {
      DivisionCompare(loss, average, limit);
      ProductNotNegative(limit, average);
      assert limit * average > 0.0;
    } else if average < 0.0 {
      NegativeShare(loss, average);
    }
  }

  lemma NegativeShare(x: real, n: real)
    requires x >= 0.0 && n < 0.0
    ensures x / n <= 0.0
  {
    DivisionCompare(-x, -n, 0.0);
    assert x / n == -x / -n;
  }

  lemma AcceptedNeedsRoom(config: Config, direction: Direction, entries: seq<Entry>, price: real, size: real)
    requires Ladder(config, direction, entries) && Exposure(entries) > 0.0
    requires Accepts(config, direction, false, entries, price, size)
    ensures HasRoom(config, direction, entries)
  {
    DrawdownBelowIff(config, direction, entries, price);
  }

  lemma ShareIsLess(limit: real, average: real, share: real)
    requires 0.0 < limit < 1.0 && average > 0.0 && share == limit * average
    ensures share < average
  {
    FactorSign(average, limit - 1.0);
    assert average * (limit - 1.0) == limit * average - average;
  }

  /** One distance beyond the last entry. */
  function NextPrice(config: Config, direction: Direction, last: real): real {
    if direction == LONG then last - config.distanceBetweenEntries else last + config.distanceBetweenEntries
  }

  lemma NextPriceIsPositive(config: Config, direction: Direction, average: real, last: real, share: real)
    requires average > 0.0 && Adverse(direction, average, last) >= 0.0
    requires Adverse(direction, average, last) + config.distanceBetweenEntries < share < average
    ensures NextPrice(config, direction, last) > 0.0
  {
    assert ValidConfig(config);
  }

  lemma NextPriceIsAccepted(config: Config, direction: Direction, entries: seq<Entry>, price: real, size: real)
    requires Ladder(config, direction, entries) && Exposure(entries) > 0.0
    requires HasRoom(config, direction, entries)
    requires price == NextPrice(config, direction, entries[|entries| - 1].price)
    requires size == config.maximumExposure - Exposure(entries)
    ensures Accepts(config, direction, false, entries, price, size)
  {
    DrawdownBelowIff(config, direction, entries, price);
  }

  /** One distance beyond the last entry, with all the exposure that is left; a price above zero if the average is. */
  lemma RoomAccepts(config: Config, direction: Direction, entries: seq<Entry>) returns (price: real, size: real)
    requires Ladder(config, direction, entries) && Exposure(entries) > 0.0
    requires HasRoom(config, direction, entries)
    ensures Accepts(config, direction, false, entries, price, size)
    ensures AveragePrice(entries) > 0.0 ==> price > 0.0
  {
    var average, last := AveragePrice(entries), entries[|entries| - 1].price;
    price, size := NextPrice(config, direction, last), config.maximumExposure - Exposure(entries);
    NextPriceIsAccepted(config, direction, entries, price, size);
    AverageWithinLadder(config, direction, entries);
    if average > 0.0 {
      var share := config.maximumDrawdown * average;
      ShareIsLess(config.maximumDrawdown, average, share);
      NextPriceIsPositive(config, direction, average, last, share);
    }
  }

  /** Some further entry is accepted exactly when there is room in number, exposure and drawdown. */
  lemma CanGrowIff(config: Config, direction: Direction, entries: seq<Entry>)
    requires Ladder(config, direction, entries)
    ensures Exposure(entries) > 0.0
    ensures CanGrow(config, direction, entries) <==> HasRoom(config, direction, entries)
  {
    ExposurePositive(entries);
    if CanGrow(config, direction, entries) {
      var price: real, size: real :| Accepts(config, direction, false, entries, price, size);
      AcceptedNeedsRoom(config, direction, entries, price, size);
    } else if HasRoom(config, direction, entries) {
      var price, size := RoomAccepts(config, direction, entries);
    }
  }

  lemma {:induction false} CompleteStays(
    config: Config, direction: Direction, entries: seq<Entry>, requests: seq<Request>)
    requires Ladder(config, direction, entries) && Exposure(entries) > 0.0 && !CanGrow(config, direction, entries)
    ensures Climb(config, direction, entries, requests) == entries
    decreases |requests|
  {
    if requests != [] {
      assert !Accepts(config, direction, false, entries, requests[0].price, requests[0].size);
      CompleteStays(config, direction, entries, requests[1..]);
    }
  }

  /** No run of requests adds to a ladder exactly when it has no room. */
  lemma CompleteForGoodIff(config: Config, direction: Direction, entries: seq<Entry>)
    requires Ladder(config, direction, entries)
    ensures Exposure(entries) > 0.0
    ensures (forall requests :: Climb(config, direction, entries, requests) == entries)
      <==> !HasRoom(config, direction, entries)
  {
    CanGrowIff(config, direction, entries);
    if HasRoom(config, direction, entries) {
      var price, size := RoomAccepts(config, direction, entries);
      ClimbOne(config, direction, entries, Request(0, price, size, ""));
    } else {
      forall requests ensures Climb(config, direction, entries, requests) == entries {
        CompleteStays(config, direction, entries, requests);
      }
    }
  }

  lemma ClimbOne(config: Config, direction: Direction, entries: seq<Entry>, request: Request)
    requires Ladder(config, direction, entries) && Exposure(entries) > 0.0
    requires Accepts(config, direction, false, entries, request.price, request.size)
    ensures Climb(config, direction, entries, [request])
         == entries + [Entry(request.timestamp, request.price, request.size, request.reason)]
  {
    var next := Consider(config, direction, entries, request);
    ConsiderKeepsLadder(config, direction, entries, request);
    assert [request][1..] == [];
    assert Climb(config, direction, next, []) == next;
  }

  /**
   * The distance and the drawdown limit fight each other: once a distance is worth the whole
   * drawdown allowance of the average price, no entry is ever accepted again.
   */
  lemma DistanceBeyondDrawdownStops(
    config: Config, direction: Direction, entries: seq<Entry>, price: real, size: real)
    requires Ladder(config, direction, entries) && Exposure(entries) > 0.0
    requires 0.0 < AveragePrice(entries)
    requires config.distanceBetweenEntries >= config.maximumDrawdown * AveragePrice(entries)
    ensures !Accepts(config, direction, false, entries, price, size)
  {
    AverageWithinLadder(config, direction, entries);
    CanGrowIff(config, direction, entries);
  }

  /**
   * A ladder with an entry and exposure to spare, below that distance: bought at 2.0 and, as its one
   * request, at 1.4, with 0.6 between entries and half the price to lose, it is complete all the same.
   */
  lemma CompleteWithoutReachingItsLimits(config: Config, first: Entry, request: Request, requests: seq<Request>)
    requires config == RawConfig(3, 3.0, 0.6, 0.5)
    requires first.price == 2.0 && first.size == 1.0 && request.price == 1.4 && request.size == 1.0
    ensures Ladder(config, LONG, [first])
    ensures var after := Climb(config, LONG, [first], [request]);
      && Ladder(config, LONG, after) && |after| == 2 < config.maximumEntries
      && 0.0 < Exposure(after) < config.maximumExposure
      && config.distanceBetweenEntries < config.maximumDrawdown * AveragePrice(after)
      && Climb(config, LONG, after, requests) == after
  {
    OneEntry(first);
    var second := Entry(request.timestamp, request.price, request.size, request.reason);
    ClimbOne(config, LONG, [first], request);
    ClimbKeepsLadder(config, LONG, [first], [request]);
    assert [first] + [second] == [first, second];
    TwoEntries(first, second);
    CompleteForGoodIff(config, LONG, [first, second]);
  }

  lemma OneEntry(e: Entry)
    ensures Exposure([e]) == e.size && Cost([e]) == e.price * e.size
  {
    assert [e][..0] == [];
  }

  lemma TwoEntries(a: Entry, b: Entry)
    ensures Exposure([a, b]) == a.size + b.size && Cost([a, b]) == a.price * a.size + b.price * b.size
  {
    assert [a, b][..1] == [a];
    OneEntry(a);
  }
}
