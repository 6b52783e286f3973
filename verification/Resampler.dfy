/** Building longer candles from complete buckets of shorter ones (data_sources/resampler.py). */
module Resampler {
  import opened Prelude
  import opened Timeframes
  import opened Candles
  import opened Slots
  import opened Bars

  datatype Error = UnsupportedConversion | TimeframeMismatch

  /** How many source candles fill one target bucket, for the supported conversions. */
  function Conversion(source: Timeframe, target: Timeframe): Option<int> {
    match (source, target)
    case (M1, M5) => Some(5)
    case (M5, M15) => Some(3)
    case (M15, M30) => Some(2)
    case (M15, H1) => Some(4)
    case (H1, H4) => Some(4)
    case (H4, D1) => Some(6)
    case _ => None
  }

  lemma ConversionFillsBucket(source: Timeframe, target: Timeframe)
    requires Conversion(source, target).Some?
    ensures Conversion(source, target).value * Delta(source) == Delta(target)
  {
  }

  /** `_bucket_start`: zero the calendar fields below the target timeframe. */
  function BucketStart(t: int, target: Timeframe): int {
    var midnight, hour, minute := MidnightOf(t), HourOf(t), MinuteOf(t);
    match target
    case D1 => midnight
    case H4 => midnight + hour / 4 * 4 * HOUR
    case H1 => midnight + hour * HOUR
    case _ =>
      var minutes := if target == M30 then 30 else if target == M15 then 15 else 5;
      midnight + hour * HOUR + minute / minutes * minutes * MINUTE
  }

  /** Every instant is days, hours, minutes and a rest below one minute. */
  lemma CalendarFields(t: int)
    ensures t == MidnightOf(t) + HourOf(t) * HOUR + MinuteOf(t) * MINUTE + t % MINUTE
    ensures MidnightOf(t) == t / DAY * DAY && 0 <= HourOf(t) < 24 && 0 <= MinuteOf(t) < 60
  {
    var d, h, m := t / DAY, t % DAY / HOUR, t % DAY % HOUR / MINUTE;
    var r := t % DAY % HOUR % MINUTE;
    assert t == DAY * d + HOUR * h + MINUTE * m + r;
    DivisionIs(t, HOUR, 24 * d + h, MINUTE * m + r);
    DivisionIs(t, MINUTE, 1440 * d + 60 * h + m, r);
  }

  lemma FloorIs(t: int, floor: int, step: int, q: int)
    requires step > 0 && floor == step * q && floor <= t < floor + step
    ensures floor == t - t % step
  {
    DivisionIs(t, step, q, t - floor);
  }

  lemma FourHoursIsFloor(t: int, d: int, h: int)
    requires DAY * d + HOUR * h <= t < DAY * d + HOUR * h + HOUR
    ensures DAY * d + h / 4 * 4 * HOUR == t - t % (4 * HOUR)
  {
    FloorIs(t, DAY * d + h / 4 * 4 * HOUR, 4 * HOUR, 6 * d + h / 4);
  }

  predicate HasFields(t: int, d: int, h: int, m: int) {
    DAY * d + HOUR * h + MINUTE * m <= t < DAY * d + HOUR * h + MINUTE * m + MINUTE
  }

  lemma HalfHourIsFloor(t: int, d: int, h: int, m: int)
    requires HasFields(t, d, h, m)
    ensures DAY * d + HOUR * h + m / 30 * 30 * MINUTE == t - t % (30 * MINUTE)
  {
    FloorIs(t, DAY * d + HOUR * h + m / 30 * 30 * MINUTE, 30 * MINUTE, 48 * d + 2 * h + m / 30);
  }

  lemma QuarterHourIsFloor(t: int, d: int, h: int, m: int)
    requires HasFields(t, d, h, m)
    ensures DAY * d + HOUR * h + m / 15 * 15 * MINUTE == t - t % (15 * MINUTE)
  {
    FloorIs(t, DAY * d + HOUR * h + m / 15 * 15 * MINUTE, 15 * MINUTE, 96 * d + 4 * h + m / 15);
  }

  lemma FiveMinutesIsFloor(t: int, d: int, h: int, m: int)
    requires HasFields(t, d, h, m)
    ensures DAY * d + HOUR * h + m / 5 * 5 * MINUTE == t - t % (5 * MINUTE)
  {
    FloorIs(t, DAY * d + HOUR * h + m / 5 * 5 * MINUTE, 5 * MINUTE, 288 * d + 12 * h + m / 5);
  }

  lemma FieldsHold(t: int)
    ensures HasFields(t, t / DAY, HourOf(t), MinuteOf(t)) && MidnightOf(t) == DAY * (t / DAY) && 0 <= MinuteOf(t) < 60
  {
    CalendarFields(t);
  }

  lemma HourIsFloor(t: int, d: int, h: int, m: int)
    requires HasFields(t, d, h, m) && 0 <= m < 60
    ensures DAY * d + HOUR * h == t - t % HOUR && DAY * d + HOUR * h <= t < DAY * d + HOUR * h + HOUR
  {
    FloorIs(t, DAY * d + HOUR * h, HOUR, 24 * d + h);
  }

  lemma HourBucketIsFloor(t: int, target: Timeframe)
    requires target in {H1, H4, D1}
    ensures BucketStart(t, target) == t - t % Delta(target)
  {
    FieldsHold(t);
    var d, h, m := t / DAY, HourOf(t), MinuteOf(t);
    match target
    case D1 =>
    case H4 => HourIsFloor(t, d, h, m); FourHoursIsFloor(t, d, h);
    case H1 => HourIsFloor(t, d, h, m);
  }

  lemma MinuteBucketIsFloor(t: int, target: Timeframe)
    requires target in {M5, M15, M30}
    ensures BucketStart(t, target) == t - t % Delta(target)
  {
    FieldsHold(t);
    var d, h, m := t / DAY, HourOf(t), MinuteOf(t);
    match target
    case M30 => HalfHourIsFloor(t, d, h, m);
    case M15 => QuarterHourIsFloor(t, d, h, m);
    case M5 => FiveMinutesIsFloor(t, d, h, m);
  }

  /** Rounding the calendar fields is rounding down to the target grid. */
  lemma BucketStartIsFloor(t: int, target: Timeframe)
    requires target != M1
    ensures BucketStart(t, target) == t - t % Delta(target)
  {
    if target in {H1, H4, D1} { HourBucketIsFloor(t, target); } else { MinuteBucketIsFloor(t, target); }
  }

  // ------------------------------------------------------------ what may be used

  /** A closed candle whose interval has elapsed by `asOf`. */
  predicate Usable(c: Candle, step: int, asOf: Option<int>) {
    c.isClosed && (asOf.Some? ==> c.timestamp + step <= asOf.value)
  }

  function UsableRows(candles: seq<Candle>, step: int, asOf: Option<int>): seq<Candle> {
    if candles == [] then []
    else if Usable(candles[0], step, asOf) then [candles[0]] + UsableRows(candles[1..], step, asOf)
    else UsableRows(candles[1..], step, asOf)
  }

  lemma {:induction false} UsableRowsConcat(a: seq<Candle>, b: seq<Candle>, step: int, asOf: Option<int>)
    ensures UsableRows(a + b, step, asOf) == UsableRows(a, step, asOf) + UsableRows(b, step, asOf)
  {
    if a == [] {
      assert a + b == b;
    } else {
      assert (a + b)[1..] == a[1..] + b;
      UsableRowsConcat(a[1..], b, step, asOf);
    }
  }

  lemma {:induction false} AtUsableRows(candles: seq<Candle>, step: int, asOf: Option<int>, t: int)
    ensures At(UsableRows(candles, step, asOf), t) == UsableRows(At(candles, t), step, asOf)
  {
    if candles != [] {
      AtUsableRows(candles[1..], step, asOf, t);
      var rest := UsableRows(candles[1..], step, asOf);
      assert ([candles[0]] + rest)[1..] == rest;
      assert ([candles[0]] + At(candles[1..], t))[1..] == At(candles[1..], t);
    }
  }

  // --------------------------------------------------------------- the target bars

  function Name(timeframe: Timeframe): string {
    match timeframe
    case M1 => "M1"
    case M5 => "M5"
    case M15 => "M15"
    case M30 => "M30"
    case H1 => "H1"
    case H4 => "H4"
    case D1 => "D1"
  }

  const METHOD: string := "UTC_COMPLETE_BUCKET_OHLCV_V1"

  /** The candle that replaces the rows of one complete bucket. */
  function Bar(rows: seq<Candle>, openTime: int, source: Timeframe, target: Timeframe): Candle
    requires rows != []
  {
    var f, feed := Fold(rows), rows[0].source;
    Candle(openTime, rows[0].symbol, target, f.open, f.high, f.low, f.close, f.volume, f.tickVolume, f.spread,
           true, feed + ":resampled:" + Name(target), Some(rows[0].provider.GetOr(feed)),
           Some(Origin(openTime + Delta(target), source, target, METHOD)))
  }

  /** The bar of the bucket that starts at t, if that bucket is on the target grid and complete. */
  ghost function BarsAt(rows: seq<Candle>, source: Timeframe, target: Timeframe, t: int): seq<Candle>
    requires Conversion(source, target).Some?
  {
    var n := Conversion(source, target).value;
    if t % Delta(target) == 0 && Full(rows, t, Delta(source), n)
    then SlotRowsOfFull(rows, t, Delta(source), n); [Bar(SlotRows(rows, t, Delta(source), n), t, source, target)]
    else []
  }

  /** One bar per complete bucket, in increasing order of time, and nothing else. */
  ghost predicate IsResampled(bars: seq<Candle>, rows: seq<Candle>, source: Timeframe, target: Timeframe)
    requires Conversion(source, target).Some?
  {
    Increasing(bars) && forall t :: At(bars, t) == BarsAt(rows, source, target, t)
  }

  lemma ResampledIsUnique(a: seq<Candle>, b: seq<Candle>, rows: seq<Candle>, source: Timeframe, target: Timeframe)
    requires Conversion(source, target).Some?
    requires IsResampled(a, rows, source, target) && IsResampled(b, rows, source, target)
    ensures a == b
  {
    SameSlotsSameSequence(a, b);
  }

  // ------------------------------------------------- the check on a sorted bucket

  function Stamps(rows: seq<Candle>): seq<int> { seq(|rows|, i requires 0 <= i < |rows| => rows[i].timestamp) }

  function Required(openTime: int, step: int, n: nat): seq<int> { seq(n, i => openTime + step * i) }

  lemma RequiredTail(b: int, step: int, n: nat)
    requires n > 0
    ensures Required(b, step, n) == [b] + Required(b + step, step, n - 1)
  {
    forall i | 0 < i < n ensures Required(b, step, n)[i] == Required(b + step, step, n - 1)[i - 1] {
      assert b + step * i == b + step + step * (i - 1);
    }
    assert step * 0 == 0;
  }

  /** Ordered, said one candle at a time. */
  ghost predicate Rising(rows: seq<Candle>) {
    rows == [] || ((forall c | c in rows :: rows[0].timestamp <= c.timestamp) && Rising(rows[1..]))
  }

  lemma {:induction false} OrderedIsRising(rows: seq<Candle>)
    requires Ordered(rows)
    ensures Rising(rows)
  {
    if rows != [] {
      OrderedIsRising(rows[1..]);
      forall c | c in rows ensures rows[0].timestamp <= c.timestamp {
        var i :| 0 <= i < |rows| && rows[i] == c;
      }
    }
  }

  ghost predicate InSpan(rows: seq<Candle>, from: int, to: int) { forall c | c in rows :: from <= c.timestamp < to }

  /** Sorted rows of a bucket carry the required stamps exactly when the bucket is full; then they are its slots. */
  lemma {:induction false} SortedRowsFill(rows: seq<Candle>, b: int, step: int, n: nat)
    requires step > 0 && Rising(rows) && InSpan(rows, b, b + n * step)
    ensures Stamps(rows) == Required(b, step, n) <==> Full(rows, b, step, n)
    ensures Full(rows, b, step, n) ==> rows == SlotRows(rows, b, step, n)
    decreases n
  {
    if n == 0 || rows == [] {
      NoRowsFill(rows, b, step, n);
    } else if rows[0].timestamp == b && InSpan(rows[1..], b + step, b + n * step) {
      assert b + step + (n - 1) * step == b + n * step;
      SortedRowsFill(rows[1..], b + step, step, n - 1);
      FillStep(rows, b, step, n);
    } else {
      NotFilled(rows, b, step, n);
    }
  }

  lemma EmptyOrNot(rows: seq<Candle>)
    ensures rows == [] || At(rows, rows[0].timestamp) != []
  {
  }

  lemma NoRowsFill(rows: seq<Candle>, b: int, step: int, n: nat)
    requires step > 0 && (n == 0 || rows == []) && InSpan(rows, b, b + n * step)
    ensures Stamps(rows) == Required(b, step, n) <==> Full(rows, b, step, n)
    ensures Full(rows, b, step, n) ==> rows == SlotRows(rows, b, step, n)
  {
    if n == 0 {
      SpanSlots(rows, b, b);
      EmptyOrNot(rows);
    } else {
      assert At(rows, b) == [];
    }
  }

  lemma FillStep(rows: seq<Candle>, b: int, step: int, n: nat)
    requires step > 0 && n > 0 && rows != [] && rows[0].timestamp == b
    requires InSpan(rows[1..], b + step, b + step + (n - 1) * step)
    ensures Stamps(rows) == Required(b, step, n) <==> Stamps(rows[1..]) == Required(b + step, step, n - 1)
    ensures Full(rows, b, step, n) <==> Full(rows[1..], b + step, step, n - 1)
    ensures SlotRows(rows, b, step, n) == [rows[0]] + SlotRows(rows[1..], b + step, step, n - 1)
  {
    var rest := rows[1..];
    RequiredTail(b, step, n);
    assert Stamps(rows) == [b] + Stamps(rest);
    assert Stamps(rest) == ([b] + Stamps(rest))[1..];
    assert Required(b + step, step, n - 1) == ([b] + Required(b + step, step, n - 1))[1..];
    SpanSlots(rest, b + step, b + step + (n - 1) * step);
    assert forall t | t > b :: At(rows, t) == At(rest, t);
    FullCongruence(rows, rest, b + step, step, n - 1);
    assert At(rows, b) == [rows[0]];
  }

  lemma {:induction false} SpanSlots(rows: seq<Candle>, from: int, to: int)
    requires InSpan(rows, from, to)
    ensures forall t | t < from || to <= t :: At(rows, t) == []
  {
    if rows != [] {
      assert rows[0] in rows;
      SpanSlots(rows[1..], from, to);
    }
  }

  /** A bucket whose first row is late fails both tests. */
  lemma LateFirstRow(rows: seq<Candle>, b: int, step: int, n: nat)
    requires step > 0 && n > 0 && Rising(rows) && rows != [] && InSpan(rows, b, b + n * step)
    requires rows[0].timestamp != b
    ensures Stamps(rows) != Required(b, step, n) && !Full(rows, b, step, n)
  {
    assert Required(b, step, n)[0] == b + step * 0;
    assert rows[0] in rows;
    SpanSlots(rows, b + 1, b + n * step);
  }

  /** A bucket with a second row before its second slot fails both tests. */
  lemma CrowdedFirstSlot(rows: seq<Candle>, b: int, step: int, n: nat, i: nat)
    requires step > 0 && n > 0 && 0 < i < |rows|
    requires rows[0].timestamp == b <= rows[i].timestamp < b + step
    ensures Stamps(rows) != Required(b, step, n) && !Full(rows, b, step, n)
  {
    var c, rest := rows[i], rows[1..];
    assert Stamps(rows)[i] == c.timestamp;
    if i < n {
      assert step * i == step + step * (i - 1);
      assert Required(b, step, n)[i] == b + step * i >= b + step;
    }
    assert rest[i - 1] == c;
    AtMember(rest, c.timestamp, c);
    if c.timestamp == b {
      assert |At(rows, b)| == 1 + |At(rest, b)|;
    } else {
      assert At(rows, c.timestamp) == At(rest, c.timestamp);
    }
  }

  lemma NotFilled(rows: seq<Candle>, b: int, step: int, n: nat)
    requires step > 0 && n > 0 && Rising(rows) && rows != [] && InSpan(rows, b, b + n * step)
    requires rows[0].timestamp != b || !InSpan(rows[1..], b + step, b + n * step)
    ensures Stamps(rows) != Required(b, step, n) && !Full(rows, b, step, n)
  {
    if rows[0].timestamp != b {
      LateFirstRow(rows, b, step, n);
    } else {
      var c :| c in rows[1..] && !(b + step <= c.timestamp < b + n * step);
      var i :| 0 <= i < |rows| - 1 && rows[1..][i] == c;
      assert c in rows;
      CrowdedFirstSlot(rows, b, step, n, i + 1);
    }
  }

  // ----------------------------------------------------------------- the method

  lemma SpanFloor(b: int, t: int, span: int)
    requires span > 0 && b % span == 0 && b <= t < b + span
    ensures t - t % span == b
  {
    assert b == span * (b / span);
    DivisionIs(t, span, b / span, t - b);
  }

  lemma FloorSpans(t: int, target: Timeframe)
    requires target != M1
    ensures BucketStart(t, target) % Delta(target) == 0
    ensures BucketStart(t, target) <= t < BucketStart(t, target) + Delta(target)
  {
    BucketStartIsFloor(t, target);
    var span := Delta(target);
    assert t - t % span == span * (t / span);
    DivisionIs(t - t % span, span, t / span, 0);
  }

  /** Each group holds the rows of its own bucket and no others; no row is without a group. */
  ghost predicate Grouped(groups: map<int, seq<Candle>>, rows: seq<Candle>, target: Timeframe) {
    && (forall b | b in groups :: GroupAt(groups[b], rows, target, b))
    && (forall c | c in rows :: BucketStart(c.timestamp, target) in groups)
  }

  lemma NoGroupNoRows(groups: map<int, seq<Candle>>, rows: seq<Candle>, target: Timeframe, b: int)
    requires target != M1 && Grouped(groups, rows, target) && b % Delta(target) == 0 && b !in groups
    ensures SameSlots([], rows, b, b + Delta(target))
  {
    forall t | b <= t < b + Delta(target) ensures At(rows, t) == [] {
      if At(rows, t) != [] {
        var c := At(rows, t)[0];
        AtMember(rows, t, c);
        SpanFloor(b, t, Delta(target));
        BucketStartIsFloor(t, target);
      }
    }
  }

  lemma OwnGroupSnoc(group: seq<Candle>, rows: seq<Candle>, c: Candle, from: int, to: int)
    requires SameSlots(group, rows, from, to)
    ensures SameSlots(group + [c], rows + [c], from, to)
  {
    forall t | from <= t < to ensures At(group + [c], t) == At(rows + [c], t) {
      AtConcat(rows, [c], t);
      AtConcat(group, [c], t);
      assert At(group, t) == At(rows, t);
    }
  }

  lemma OtherGroupSnoc(group: seq<Candle>, rows: seq<Candle>, c: Candle, b: int, target: Timeframe)
    requires target != M1 && b % Delta(target) == 0 && b != BucketStart(c.timestamp, target)
    requires SameSlots(group, rows, b, b + Delta(target))
    ensures SameSlots(group, rows + [c], b, b + Delta(target))
  {
    forall t | b <= t < b + Delta(target) ensures At(group, t) == At(rows + [c], t) {
      AtConcat(rows, [c], t);
      SpanFloor(b, t, Delta(target));
      BucketStartIsFloor(t, target);
      assert At([c], t) == [];
      assert At(group, t) == At(rows, t);
    }
  }

  /** One group: the rows of the bucket b, and nothing outside it. */
  ghost predicate GroupAt(group: seq<Candle>, rows: seq<Candle>, target: Timeframe, b: int) {
    && b % Delta(target) == 0
    && InSpan(group, b, b + Delta(target))
    && SameSlots(group, rows, b, b + Delta(target))
  }

  lemma OwnGroup(groups: map<int, seq<Candle>>, rows: seq<Candle>, target: Timeframe, c: Candle)
    requires target != M1 && Grouped(groups, rows, target)
    ensures var b := BucketStart(c.timestamp, target);
      GroupAt((if b in groups then groups[b] else []) + [c], rows + [c], target, b)
  {
    var b, span := BucketStart(c.timestamp, target), Delta(target);
    FloorSpans(c.timestamp, target);
    if b in groups { assert GroupAt(groups[b], rows, target, b); } else { NoGroupNoRows(groups, rows, target, b); }
    OwnGroupSnoc(if b in groups then groups[b] else [], rows, c, b, b + span);
  }

  lemma OtherGroup(groups: map<int, seq<Candle>>, rows: seq<Candle>, target: Timeframe, c: Candle, k: int)
    requires target != M1 && Grouped(groups, rows, target) && k in groups && k != BucketStart(c.timestamp, target)
    ensures GroupAt(groups[k], rows + [c], target, k)
  {
    assert GroupAt(groups[k], rows, target, k);
    OtherGroupSnoc(groups[k], rows, c, k, target);
  }

  lemma GroupedSnoc(groups: map<int, seq<Candle>>, rows: seq<Candle>, target: Timeframe, c: Candle)
    requires target != M1 && Grouped(groups, rows, target)
    ensures var b := BucketStart(c.timestamp, target);
      Grouped(groups[b := (if b in groups then groups[b] else []) + [c]], rows + [c], target)
  {
    var b := BucketStart(c.timestamp, target);
    var after := groups[b := (if b in groups then groups[b] else []) + [c]];
    OwnGroup(groups, rows, target, c);
    forall k | k in after ensures GroupAt(after[k], rows + [c], target, k) {
      if k != b { OtherGroup(groups, rows, target, c, k); }
    }
  }

  lemma UsableRowsSnoc(sorted: seq<Candle>, i: nat, step: int, asOf: Option<int>)
    requires i < |sorted|
    ensures UsableRows(sorted[..i + 1], step, asOf)
         == UsableRows(sorted[..i], step, asOf) + if Usable(sorted[i], step, asOf) then [sorted[i]] else []
  {
    assert sorted[..i + 1] == sorted[..i] + [sorted[i]];
    UsableRowsConcat(sorted[..i], [sorted[i]], step, asOf);
    assert [sorted[i]][1..] == [];
  }

  /** The first loop of `resample`: the usable rows by bucket, or the refusal of a foreign timeframe. */
  method GroupRows(sorted: seq<Candle>, source: Timeframe, target: Timeframe, asOf: Option<int>)
    returns (groups: Result<map<int, seq<Candle>>, Error>)
    requires target != M1
    ensures (exists c :: c in sorted && c.timeframe != source) ==> groups == Err(TimeframeMismatch)
    ensures (forall c | c in sorted :: c.timeframe == source) ==>
      groups.Ok? && Grouped(groups.value, UsableRows(sorted, Delta(source), asOf), target)
  {
    var byBucket: map<int, seq<Candle>> := map[];
    var step := Delta(source);
    ghost var rows := [];
    var i := 0;
    while i < |sorted|
      invariant 0 <= i <= |sorted|
      invariant forall k | 0 <= k < i :: sorted[k].timeframe == source
      invariant rows == UsableRows(sorted[..i], step, asOf)
      invariant Grouped(byBucket, rows, target)
    {
      var candle := sorted[i];
      if candle.timeframe != source { return Err(TimeframeMismatch); }
      UsableRowsSnoc(sorted, i, step, asOf);
      i := i + 1;
      if !candle.isClosed { continue; }
      if asOf.Some? && candle.timestamp + step > asOf.value { continue; }
      var bucket := BucketStart(candle.timestamp, target);
      GroupedSnoc(byBucket, rows, target, candle);
      rows := rows + [candle];
      byBucket := byBucket[bucket := (if bucket in byBucket then byBucket[bucket] else []) + [candle]];
    }
    assert sorted[..i] == sorted;
    return Ok(byBucket);
  }

  lemma SortedSameSlots(group: seq<Candle>, rows: seq<Candle>, from: int, to: int)
    requires SameSlots(group, rows, from, to)
    ensures SameSlots(ByTime(group), rows, from, to)
  {
    forall t | from <= t < to ensures At(ByTime(group), t) == At(rows, t) {
      AtByTime(group, t);
      assert At(group, t) == At(rows, t);
    }
  }

  lemma SortedInSpan(group: seq<Candle>, from: int, to: int)
    requires InSpan(group, from, to)
    ensures InSpan(ByTime(group), from, to) && Rising(ByTime(group))
  {
    ByTimeOrders(group);
    OrderedIsRising(ByTime(group));
  }

  lemma SortedGroupFills(group: seq<Candle>, rows: seq<Candle>, b: int, step: int, n: nat)
    requires step > 0 && InSpan(group, b, b + n * step) && SameSlots(group, rows, b, b + n * step)
    ensures Stamps(ByTime(group)) == Required(b, step, n) <==> Full(rows, b, step, n)
    ensures Full(rows, b, step, n) ==> ByTime(group) == SlotRows(rows, b, step, n)
  {
    SortedInSpan(group, b, b + n * step);
    SortedRowsFill(ByTime(group), b, step, n);
    SortedSameSlots(group, rows, b, b + n * step);
    FullCongruence(ByTime(group), rows, b, step, n);
  }

  /** The test on one sorted group decides whether its bucket is complete. */
  lemma GroupDecides(group: seq<Candle>, rows: seq<Candle>, source: Timeframe, target: Timeframe, b: int)
    requires Conversion(source, target).Some? && GroupAt(group, rows, target, b)
    ensures var n := Conversion(source, target).value;
      Stamps(ByTime(group)) == Required(b, Delta(source), n) <==> Full(rows, b, Delta(source), n)
    ensures if Full(rows, b, Delta(source), Conversion(source, target).value)
      then ByTime(group) != [] && BarsAt(rows, source, target, b) == [Bar(ByTime(group), b, source, target)]
      else BarsAt(rows, source, target, b) == []
  {
    var n, step := Conversion(source, target).value, Delta(source);
    ConversionFillsBucket(source, target);
    SortedGroupFills(group, rows, b, step, n);
    if Full(rows, b, step, n) { SlotRowsOfFull(rows, b, step, n); }
  }

  /** A complete bucket of usable rows has closed: the last test of the source's loop never rejects one. */
  lemma FullHasClosed(rows: seq<Candle>, source: Timeframe, target: Timeframe, asOf: Option<int>, b: int)
    requires Conversion(source, target).Some?
    requires forall c | c in rows :: Usable(c, Delta(source), asOf)
    requires Full(rows, b, Delta(source), Conversion(source, target).value)
    ensures asOf.Some? ==> b + Delta(target) <= asOf.value
  {
    var n, step := Conversion(source, target).value, Delta(source);
    ConversionFillsBucket(source, target);
    var last := LastSlot(rows, b, step, n);
    assert Usable(last, step, asOf);
    assert last.timestamp + step == b + n * step;
  }

  lemma LastSlot(rows: seq<Candle>, b: int, step: int, n: nat) returns (last: Candle)
    requires n > 0 && Full(rows, b, step, n)
    ensures last in rows && last.timestamp + step == b + n * step
  {
    SlotRowsOfFull(rows, b, step, n);
    last := SlotRows(rows, b, step, n)[n - 1];
    assert (n - 1) * step + step == n * step;
  }

  lemma NoGroupNoBar(groups: map<int, seq<Candle>>, rows: seq<Candle>, source: Timeframe, target: Timeframe, t: int)
    requires Conversion(source, target).Some? && Grouped(groups, rows, target) && t !in groups
    ensures BarsAt(rows, source, target, t) == []
  {
    if t % Delta(target) == 0 {
      NoGroupNoRows(groups, rows, target, t);
      assert At([], t) == At(rows, t);
    }
  }

  lemma {:induction false} Least(s: set<int>) returns (least: int)
    requires |s| > 0
    ensures least in s && forall k | k in s :: least <= k
    decreases |s|
  {
    var x := MemberOf(s);
    var rest := s - {x};
    if |rest| == 0 {
      assert s == {x} + rest == {x};
      least := x;
    } else {
      var m := Least(rest);
      least := if m < x then m else x;
      assert s == {x} + rest;
    }
  }

  /** The bars so far are in order, and before every group that is still to come. */
  ghost predicate EmittedInOrder(bars: seq<Candle>, remaining: set<int>) {
    && Increasing(bars)
    && (bars != [] ==> forall k | k in remaining :: bars[|bars| - 1].timestamp < k)
  }

  /** The bars so far are those of the groups that are done. */
  ghost predicate EmittedExactly(
    bars: seq<Candle>, groups: map<int, seq<Candle>>, remaining: set<int>, rows: seq<Candle>,
    source: Timeframe, target: Timeframe)
    requires Conversion(source, target).Some?
  {
    forall t :: At(bars, t) == EmittedAt(groups, remaining, rows, source, target, t)
  }

  ghost function EmittedAt(
    groups: map<int, seq<Candle>>, remaining: set<int>, rows: seq<Candle>, source: Timeframe, target: Timeframe, t: int)
    : seq<Candle>
    requires Conversion(source, target).Some?
  {
    if t in groups && t !in remaining then BarsAt(rows, source, target, t) else []
  }

  lemma EmitNone(
    bars: seq<Candle>, groups: map<int, seq<Candle>>, remaining: set<int>, rows: seq<Candle>,
    source: Timeframe, target: Timeframe, b: int)
    requires Conversion(source, target).Some? && EmittedExactly(bars, groups, remaining, rows, source, target)
    requires BarsAt(rows, source, target, b) == []
    ensures EmittedExactly(bars, groups, remaining - {b}, rows, source, target)
  {
    forall t ensures At(bars, t) == EmittedAt(groups, remaining - {b}, rows, source, target, t) {
      assert At(bars, t) == EmittedAt(groups, remaining, rows, source, target, t);
    }
  }

  lemma EmitOne(
    bars: seq<Candle>, groups: map<int, seq<Candle>>, remaining: set<int>, rows: seq<Candle>,
    source: Timeframe, target: Timeframe, bar: Candle)
    requires Conversion(source, target).Some? && EmittedExactly(bars, groups, remaining, rows, source, target)
    requires bar.timestamp in remaining && bar.timestamp in groups
    requires BarsAt(rows, source, target, bar.timestamp) == [bar]
    ensures EmittedExactly(bars + [bar], groups, remaining - {bar.timestamp}, rows, source, target)
  {
    forall t ensures At(bars + [bar], t) == EmittedAt(groups, remaining - {bar.timestamp}, rows, source, target, t) {
      AtSnoc(bars, bar, t);
      assert At(bars, t) == EmittedAt(groups, remaining, rows, source, target, t);
    }
  }

  lemma EmitInOrder(bars: seq<Candle>, remaining: set<int>, bar: Candle)
    requires EmittedInOrder(bars, remaining) && bar.timestamp in remaining
    requires forall k | k in remaining :: bar.timestamp <= k
    ensures EmittedInOrder(bars + [bar], remaining - {bar.timestamp})
  {
    IncreasingSnoc(bars, bar);
  }

  lemma IncreasingSnoc(bars: seq<Candle>, bar: Candle)
    requires Increasing(bars) && (bars != [] ==> bars[|bars| - 1].timestamp < bar.timestamp)
    ensures Increasing(bars + [bar])
  {
  }

  lemma AtSnoc(bars: seq<Candle>, bar: Candle, t: int)
    ensures At(bars + [bar], t) == if bar.timestamp == t then At(bars, t) + [bar] else At(bars, t)
  {
    AtConcat(bars, [bar], t);
    assert [bar][1..] == [];
  }

  /** The source's test of a sorted group. */
  predicate Complete(
    sorted: seq<Candle>, b: int, source: Timeframe, target: Timeframe, expected: nat, asOf: Option<int>)
  {
    |sorted| == expected && Stamps(sorted) == Required(b, Delta(source), expected)
    && (asOf.Some? ==> b + Delta(target) <= asOf.value)
  }

  lemma TestDecides(
    group: seq<Candle>, rows: seq<Candle>, source: Timeframe, target: Timeframe, asOf: Option<int>, b: int)
    requires Conversion(source, target).Some? && GroupAt(group, rows, target, b)
    requires forall c | c in rows :: Usable(c, Delta(source), asOf)
    ensures if Complete(ByTime(group), b, source, target, Conversion(source, target).value, asOf)
      then ByTime(group) != [] && BarsAt(rows, source, target, b) == [Bar(ByTime(group), b, source, target)]
      else BarsAt(rows, source, target, b) == []
  {
    GroupDecides(group, rows, source, target, b);
    if Full(rows, b, Delta(source), Conversion(source, target).value) { FullHasClosed(rows, source, target, asOf, b); }
  }

  ghost predicate Emitted(
    bars: seq<Candle>, groups: map<int, seq<Candle>>, remaining: set<int>, rows: seq<Candle>,
    source: Timeframe, target: Timeframe)
    requires Conversion(source, target).Some?
  {
    && remaining <= groups.Keys && EmittedInOrder(bars, remaining)
    && EmittedExactly(bars, groups, remaining, rows, source, target)
  }

  lemma NothingEmitted(groups: map<int, seq<Candle>>, rows: seq<Candle>, source: Timeframe, target: Timeframe)
    requires Conversion(source, target).Some?
    ensures Emitted([], groups, groups.Keys, rows, source, target)
  {
  }

  lemma SkipGroup(
    bars: seq<Candle>, groups: map<int, seq<Candle>>, remaining: set<int>, rows: seq<Candle>,
    source: Timeframe, target: Timeframe, b: int)
    requires Conversion(source, target).Some? && Emitted(bars, groups, remaining, rows, source, target)
    requires BarsAt(rows, source, target, b) == []
    ensures Emitted(bars, groups, remaining - {b}, rows, source, target)
  {
    EmitNone(bars, groups, remaining, rows, source, target, b);
  }

  lemma EmitGroup(
    bars: seq<Candle>, groups: map<int, seq<Candle>>, remaining: set<int>, rows: seq<Candle>,
    source: Timeframe, target: Timeframe, bar: Candle)
    requires Conversion(source, target).Some? && Emitted(bars, groups, remaining, rows, source, target)
    requires bar.timestamp in remaining && forall k | k in remaining :: bar.timestamp <= k
    requires BarsAt(rows, source, target, bar.timestamp) == [bar]
    ensures Emitted(bars + [bar], groups, remaining - {bar.timestamp}, rows, source, target)
  {
    EmitOne(bars, groups, remaining, rows, source, target, bar);
    EmitInOrder(bars, remaining, bar);
  }

  lemma EmittedAll(
    bars: seq<Candle>, groups: map<int, seq<Candle>>, rows: seq<Candle>, source: Timeframe, target: Timeframe)
    requires Conversion(source, target).Some? && Grouped(groups, rows, target)
    requires Emitted(bars, groups, {}, rows, source, target)
    ensures IsResampled(bars, rows, source, target)
  {
    forall t ensures At(bars, t) == BarsAt(rows, source, target, t) {
      assert At(bars, t) == EmittedAt(groups, {}, rows, source, target, t);
      if t !in groups { NoGroupNoBar(groups, rows, source, target, t); }
    }
  }

  /** The second loop of `resample`: one bar per complete group, in order of time. */
  method EmitBars(
    groups: map<int, seq<Candle>>, ghost rows: seq<Candle>, source: Timeframe, target: Timeframe, asOf: Option<int>)
    returns (bars: seq<Candle>)
    requires Conversion(source, target).Some? && Grouped(groups, rows, target)
    requires forall c | c in rows :: Usable(c, Delta(source), asOf)
    ensures IsResampled(bars, rows, source, target)
  {
    bars := [];
    var expected := Conversion(source, target).value;
    var remaining := groups.Keys;
    NothingEmitted(groups, rows, source, target);
    while |remaining| > 0
      invariant Emitted(bars, groups, remaining, rows, source, target)
      decreases |remaining|
    {
      ghost var least := Least(remaining);
      var openTime :| openTime in remaining && forall k | k in remaining :: openTime <= k;
      var sorted := ByTime(groups[openTime]);
      TestDecides(groups[openTime], rows, source, target, asOf, openTime);
      if !Complete(sorted, openTime, source, target, expected, asOf) {
        SkipGroup(bars, groups, remaining, rows, source, target, openTime);
      } else {
        var bar := Bar(sorted, openTime, source, target);
        EmitGroup(bars, groups, remaining, rows, source, target, bar);
        bars := bars + [bar];
      }
      remaining := remaining - {openTime};
    }
    assert remaining == {};
    EmittedAll(bars, groups, rows, source, target);
  }

  lemma {:induction false} UsableRowsMembers(candles: seq<Candle>, step: int, asOf: Option<int>)
    ensures forall c :: c in UsableRows(candles, step, asOf) <==> c in candles && Usable(c, step, asOf)
  {
    if candles != [] {
      UsableRowsMembers(candles[1..], step, asOf);
      assert candles == [candles[0]] + candles[1..];
    }
  }

  lemma SortedSameUsable(candles: seq<Candle>, step: int, asOf: Option<int>, from: int, to: int)
    ensures SameSlots(UsableRows(ByTime(candles), step, asOf), UsableRows(candles, step, asOf), from, to)
  {
    var x, y := UsableRows(ByTime(candles), step, asOf), UsableRows(candles, step, asOf);
    forall u | from <= u < to ensures At(x, u) == At(y, u) {
      AtByTime(candles, u);
      AtUsableRows(candles, step, asOf, u);
      AtUsableRows(ByTime(candles), step, asOf, u);
    }
  }

  lemma SortedRowsMakeSameBars(
    bars: seq<Candle>, candles: seq<Candle>, source: Timeframe, target: Timeframe, asOf: Option<int>)
    requires Conversion(source, target).Some?
    requires IsResampled(bars, UsableRows(ByTime(candles), Delta(source), asOf), source, target)
    ensures IsResampled(bars, UsableRows(candles, Delta(source), asOf), source, target)
  {
    var n, step := Conversion(source, target).value, Delta(source);
    var x, y := UsableRows(ByTime(candles), step, asOf), UsableRows(candles, step, asOf);
    forall t ensures At(bars, t) == BarsAt(y, source, target, t) {
      SortedSameUsable(candles, step, asOf, t, t + n * step);
      FullCongruence(x, y, t, step, n);
      assert At(bars, t) == BarsAt(x, source, target, t);
    }
  }

  /** `MarketDataResampler.resample`. */
  method Resample(candles: seq<Candle>, source: Timeframe, target: Timeframe, asOf: Option<int>)
    returns (bars: Result<seq<Candle>, Error>)
    ensures Conversion(source, target).None? ==> bars == Err(UnsupportedConversion)
    ensures Conversion(source, target).Some? && (exists c :: c in candles && c.timeframe != source) ==>
      bars == Err(TimeframeMismatch)
    ensures Conversion(source, target).Some? && (forall c | c in candles :: c.timeframe == source) ==>
      bars.Ok? && IsResampled(bars.value, UsableRows(candles, Delta(source), asOf), source, target)
  {
    if Conversion(source, target).None? { return Err(UnsupportedConversion); }
    var sorted := ByTime(candles);
    assert forall c :: c in sorted <==> c in candles by { ByTimeOrders(candles); }
    var groups := GroupRows(sorted, source, target, asOf);
    if groups.Err? { return Err(groups.error); }
    ghost var rows := UsableRows(sorted, Delta(source), asOf);
    UsableRowsMembers(sorted, Delta(source), asOf);
    var output := EmitBars(groups.value, rows, source, target, asOf);
    SortedRowsMakeSameBars(output, candles, source, target, asOf);
    return Ok(output);
  }

  // --------------------------------------------------------------- what bars mean

  /** Bars summarise the usable rows: complete buckets and no others, each with the folded figures. */
  lemma ResampledSummarises(bars: seq<Candle>, rows: seq<Candle>, source: Timeframe, target: Timeframe)
    requires Conversion(source, target).Some? && IsResampled(bars, rows, source, target)
    ensures Summarises(bars, rows, Delta(source), Conversion(source, target).value)
  {
    var n, step := Conversion(source, target).value, Delta(source);
    ConversionFillsBucket(source, target);
    forall t ensures BarAt(bars, rows, step, n, t) {
      assert At(bars, t) == BarsAt(rows, source, target, t);
      if Full(rows, t, step, n) { SlotRowsOfFull(rows, t, step, n); }
    }
  }

  /** Every bar is closed, carries the target timeframe, and closed by `asOf`: the next layer may use them all. */
  lemma BarsAreUsable(
    bars: seq<Candle>, rows: seq<Candle>, source: Timeframe, target: Timeframe, asOf: Option<int>, bar: Candle)
    requires Conversion(source, target).Some? && IsResampled(bars, rows, source, target)
    requires forall c | c in rows :: Usable(c, Delta(source), asOf)
    requires bar in bars
    ensures bar.timeframe == target && Usable(bar, Delta(target), asOf)
  {
    AtMember(bars, bar.timestamp, bar);
    assert At(bars, bar.timestamp) == BarsAt(rows, source, target, bar.timestamp);
    FullHasClosed(rows, source, target, asOf, bar.timestamp);
  }

  lemma {:induction false} AllUsable(candles: seq<Candle>, step: int, asOf: Option<int>)
    requires forall c | c in candles :: Usable(c, step, asOf)
    ensures UsableRows(candles, step, asOf) == candles
  {
    if candles != [] {
      AllUsable(candles[1..], step, asOf);
    }
  }

  /** Valid candles make valid bars. */
  lemma BarsAreValid(bars: seq<Candle>, rows: seq<Candle>, source: Timeframe, target: Timeframe, bar: Candle)
    requires Conversion(source, target).Some? && IsResampled(bars, rows, source, target)
    requires forall c | c in rows :: ValidPrices(FiguresOf(c))
    requires bar in bars
    ensures ValidPrices(FiguresOf(bar))
  {
    var t, n, step := bar.timestamp, Conversion(source, target).value, Delta(source);
    AtMember(bars, t, bar);
    assert At(bars, t) == BarsAt(rows, source, target, t);
    SlotRowsOfFull(rows, t, step, n);
    FoldIsValid(SlotRows(rows, t, step, n));
  }

  lemma UsableBars(
    bars: seq<Candle>, candles: seq<Candle>, source: Timeframe, target: Timeframe, asOf: Option<int>)
    requires Conversion(source, target).Some?
    requires IsResampled(bars, UsableRows(candles, Delta(source), asOf), source, target)
    ensures UsableRows(bars, Delta(target), asOf) == bars
  {
    UsableRowsMembers(candles, Delta(source), asOf);
    forall bar | bar in bars ensures Usable(bar, Delta(target), asOf) {
      BarsAreUsable(bars, UsableRows(candles, Delta(source), asOf), source, target, asOf, bar);
    }
    AllUsable(bars, Delta(target), asOf);
  }

  /**
   * Resampling the output of a resampling: the second layer holds the complete buckets of the
   * first layer's own rows, folded once.
   */
  lemma TwoLayers(
    candles: seq<Candle>, inner: seq<Candle>, outer: seq<Candle>,
    small: Timeframe, middle: Timeframe, large: Timeframe, asOf: Option<int>)
    requires Conversion(small, middle).Some? && Conversion(middle, large).Some?
    requires IsResampled(inner, UsableRows(candles, Delta(small), asOf), small, middle)
    requires IsResampled(outer, UsableRows(inner, Delta(middle), asOf), middle, large)
    ensures Summarises(outer, UsableRows(candles, Delta(small), asOf), Delta(small),
                       Conversion(middle, large).value * Conversion(small, middle).value)
  {
    var rows := UsableRows(candles, Delta(small), asOf);
    var n, m := Conversion(small, middle).value, Conversion(middle, large).value;
    UsableBars(inner, candles, small, middle, asOf);
    ResampledSummarises(inner, rows, small, middle);
    ResampledSummarises(outer, inner, middle, large);
    ConversionFillsBucket(small, middle);
    LayersCompose(outer, inner, rows, Delta(small), n, Delta(middle), m);
  }

  lemma FourHoursToDay(rows: seq<Candle>, h4: seq<Candle>, d1: seq<Candle>)
    requires Summarises(h4, rows, Delta(M15), 16) && IsResampled(d1, h4, H4, D1)
    ensures Summarises(d1, rows, Delta(M15), 96)
  {
    ResampledSummarises(d1, h4, H4, D1);
    LayersCompose(d1, h4, rows, Delta(M15), 16, Delta(H4), 6);
  }

  /** M15 to H1 to H4 to D1 is one fold over the 96 complete quarter hours of a day. */
  lemma QuarterHoursToDay(
    candles: seq<Candle>, h1: seq<Candle>, h4: seq<Candle>, d1: seq<Candle>, asOf: Option<int>)
    requires IsResampled(h1, UsableRows(candles, Delta(M15), asOf), M15, H1)
    requires IsResampled(h4, UsableRows(h1, Delta(H1), asOf), H1, H4)
    requires IsResampled(d1, UsableRows(h4, Delta(H4), asOf), H4, D1)
    ensures Summarises(h4, UsableRows(candles, Delta(M15), asOf), Delta(M15), 16)
    ensures Summarises(d1, UsableRows(candles, Delta(M15), asOf), Delta(M15), 96)
  {
    TwoLayers(candles, h1, h4, M15, H1, H4, asOf);
    UsableBars(h4, h1, H1, H4, asOf);
    FourHoursToDay(UsableRows(candles, Delta(M15), asOf), h4, d1);
  }

  // --------------------------------------------------- an earlier look is a prefix

  ghost predicate NoLaterThan(earlier: int, later: Option<int>) { later.Some? ==> earlier <= later.value }

  /** A closed candle that was not usable at the earlier moment, is usable at the later one, and falls in bucket b. */
  predicate LateInto(c: Candle, step: int, target: Timeframe, earlier: int, later: Option<int>, b: int) {
    Usable(c, step, later) && !Usable(c, step, Some(earlier)) && BucketStart(c.timestamp, target) == b
  }

  ghost predicate BucketReopened(
    candles: seq<Candle>, source: Timeframe, target: Timeframe, earlier: int, later: Option<int>, b: int)
  {
    exists c :: c in candles && LateInto(c, Delta(source), target, earlier, later, b)
  }

  /** Looking later changes what a slot holds only by adding the late candles of that instant. */
  lemma AtLater(candles: seq<Candle>, step: int, earlier: int, later: Option<int>, t: int)
    requires NoLaterThan(earlier, later) && t + step <= earlier
    ensures At(UsableRows(candles, step, Some(earlier)), t) == At(UsableRows(candles, step, later), t)
  {
    AtUsableRows(candles, step, Some(earlier), t);
    AtUsableRows(candles, step, later, t);
    forall c | c in At(candles, t) ensures c.timestamp == t { AtMember(candles, t, c); }
    SameUsable(At(candles, t), step, Some(earlier), later);
  }

  lemma {:induction false} SameUsable(candles: seq<Candle>, step: int, a: Option<int>, b: Option<int>)
    requires forall c | c in candles :: Usable(c, step, a) == Usable(c, step, b)
    ensures UsableRows(candles, step, a) == UsableRows(candles, step, b)
  {
    if candles != [] {
      assert candles[0] in candles;
      SameUsable(candles[1..], step, a, b);
    }
  }

  /** A bucket that had closed by the earlier moment keeps its bars unless a late candle falls into it. */
  lemma ClosedBucketKeepsBars(
    candles: seq<Candle>, source: Timeframe, target: Timeframe, earlier: int, later: Option<int>, t: int)
    requires Conversion(source, target).Some? && NoLaterThan(earlier, later)
    requires t % Delta(target) == 0 && t + Delta(target) <= earlier
    requires !BucketReopened(candles, source, target, earlier, later, t)
    ensures BarsAt(UsableRows(candles, Delta(source), Some(earlier)), source, target, t)
         == BarsAt(UsableRows(candles, Delta(source), later), source, target, t)
  {
    var n, step := Conversion(source, target).value, Delta(source);
    ConversionFillsBucket(source, target);
    var x, y := UsableRows(candles, step, Some(earlier)), UsableRows(candles, step, later);
    forall u | t <= u < t + n * step ensures At(x, u) == At(y, u) {
      if u + step <= earlier {
        AtLater(candles, step, earlier, later, u);
      } else {
        UsableRowsMembers(candles, step, Some(earlier));
        UsableRowsMembers(candles, step, later);
        SpanFloor(t, u, Delta(target));
        BucketStartIsFloor(u, target);
        if At(x, u) != [] { AtMember(x, u, At(x, u)[0]); }
        if At(y, u) != [] { AtMember(y, u, At(y, u)[0]); }
      }
    }
    FullCongruence(x, y, t, step, n);
  }

  /** A bucket that had closed by the earlier moment and that a late candle falls into has no bar any more. */
  lemma ReopenedBucketHasNoBar(
    candles: seq<Candle>, source: Timeframe, target: Timeframe, earlier: int, later: Option<int>, t: int)
    requires Conversion(source, target).Some? && NoLaterThan(earlier, later)
    requires t % Delta(target) == 0 && t + Delta(target) <= earlier
    requires BucketReopened(candles, source, target, earlier, later, t)
    ensures BarsAt(UsableRows(candles, Delta(source), later), source, target, t) == []
  {
    var n, step := Conversion(source, target).value, Delta(source);
    ConversionFillsBucket(source, target);
    var y := UsableRows(candles, step, later);
    var c :| c in candles && LateInto(c, step, target, earlier, later, t);
    FloorSpans(c.timestamp, target);
    UsableRowsMembers(candles, step, later);
    AtMember(y, c.timestamp, c);
    assert c.timestamp > t + n * step - step && c.timestamp < t + n * step;
    if Full(y, t, step, n) { FullEndsAtLastSlot(y, t, step, n, c.timestamp); }
  }

  /** A bucket on the target grid that the rows usable at the earlier moment complete. */
  ghost predicate CompleteAt(candles: seq<Candle>, source: Timeframe, target: Timeframe, earlier: int, b: int)
    requires Conversion(source, target).Some?
  {
    b % Delta(target) == 0
    && Full(UsableRows(candles, Delta(source), Some(earlier)), b, Delta(source), Conversion(source, target).value)
  }

  /** No late candle falls into a bucket that was complete at the earlier moment. */
  ghost predicate NothingReopened(
    candles: seq<Candle>, source: Timeframe, target: Timeframe, earlier: int, later: Option<int>)
    requires Conversion(source, target).Some?
  {
    forall b | CompleteAt(candles, source, target, earlier, b) ::
      !BucketReopened(candles, source, target, earlier, later, b)
  }

  lemma CompleteHasClosed(candles: seq<Candle>, source: Timeframe, target: Timeframe, earlier: int, b: int)
    requires Conversion(source, target).Some? && CompleteAt(candles, source, target, earlier, b)
    ensures b + Delta(target) <= earlier
  {
    UsableRowsMembers(candles, Delta(source), Some(earlier));
    FullHasClosed(UsableRows(candles, Delta(source), Some(earlier)), source, target, Some(earlier), b);
  }

  lemma BarIffComplete(
    candles: seq<Candle>, before: seq<Candle>, source: Timeframe, target: Timeframe, earlier: int, t: int)
    requires Conversion(source, target).Some?
    requires IsResampled(before, UsableRows(candles, Delta(source), Some(earlier)), source, target)
    ensures At(before, t) != [] <==> CompleteAt(candles, source, target, earlier, t)
  {
    assert At(before, t) == BarsAt(UsableRows(candles, Delta(source), Some(earlier)), source, target, t);
  }

  lemma ReopenedIsNoPrefix(
    candles: seq<Candle>, before: seq<Candle>, after: seq<Candle>,
    source: Timeframe, target: Timeframe, earlier: int, later: Option<int>, b: int)
    requires Conversion(source, target).Some? && NoLaterThan(earlier, later)
    requires IsResampled(before, UsableRows(candles, Delta(source), Some(earlier)), source, target)
    requires IsResampled(after, UsableRows(candles, Delta(source), later), source, target)
    requires CompleteAt(candles, source, target, earlier, b)
    requires BucketReopened(candles, source, target, earlier, later, b)
    ensures At(before, b) != [] && At(after, b) == [] && !(before <= after)
  {
    CompleteHasClosed(candles, source, target, earlier, b);
    BarIffComplete(candles, before, source, target, earlier, b);
    var bar := At(before, b)[0];
    AtMember(before, b, bar);
    AtMember(after, b, bar);
    ReopenedBucketHasNoBar(candles, source, target, earlier, later, b);
    assert At(after, b) == BarsAt(UsableRows(candles, Delta(source), later), source, target, b);
    if before <= after { PrefixKeepsSlots(before, after, bar); }
  }

  /** A bucket that had closed by the earlier moment keeps its bar, unless it was complete and is reopened. */
  lemma ClosedBucketSameBars(
    candles: seq<Candle>, source: Timeframe, target: Timeframe, earlier: int, later: Option<int>, t: int)
    requires Conversion(source, target).Some? && NoLaterThan(earlier, later)
    requires NothingReopened(candles, source, target, earlier, later) && t + Delta(target) <= earlier
    ensures BarsAt(UsableRows(candles, Delta(source), Some(earlier)), source, target, t)
         == BarsAt(UsableRows(candles, Delta(source), later), source, target, t)
  {
    if t % Delta(target) == 0 {
      if BucketReopened(candles, source, target, earlier, later, t) {
        assert !CompleteAt(candles, source, target, earlier, t);
        ReopenedBucketHasNoBar(candles, source, target, earlier, later, t);
      } else {
        ClosedBucketKeepsBars(candles, source, target, earlier, later, t);
      }
    }
  }

  /** Below the cut both outputs agree; from the cut on the earlier one has nothing. */
  lemma SameBelowCut(
    candles: seq<Candle>, before: seq<Candle>, after: seq<Candle>,
    source: Timeframe, target: Timeframe, earlier: int, later: Option<int>, t: int)
    requires Conversion(source, target).Some? && NoLaterThan(earlier, later)
    requires IsResampled(before, UsableRows(candles, Delta(source), Some(earlier)), source, target)
    requires IsResampled(after, UsableRows(candles, Delta(source), later), source, target)
    requires NothingReopened(candles, source, target, earlier, later)
    ensures At(before, t) == if t + Delta(target) <= earlier then At(after, t) else []
  {
    if t + Delta(target) <= earlier {
      ClosedBucketSameBars(candles, source, target, earlier, later, t);
      assert At(before, t) == BarsAt(UsableRows(candles, Delta(source), Some(earlier)), source, target, t);
      assert At(after, t) == BarsAt(UsableRows(candles, Delta(source), later), source, target, t);
    } else {
      BarIffComplete(candles, before, source, target, earlier, t);
      if CompleteAt(candles, source, target, earlier, t) { CompleteHasClosed(candles, source, target, earlier, t); }
    }
  }

  /**
   * An earlier look at the same candles is a prefix of a later one exactly when no late
   * candle falls into a bucket that was complete at the earlier moment.
   */
  lemma EarlierIsPrefix(
    candles: seq<Candle>, before: seq<Candle>, after: seq<Candle>,
    source: Timeframe, target: Timeframe, earlier: int, later: Option<int>)
    requires Conversion(source, target).Some? && NoLaterThan(earlier, later)
    requires IsResampled(before, UsableRows(candles, Delta(source), Some(earlier)), source, target)
    requires IsResampled(after, UsableRows(candles, Delta(source), later), source, target)
    ensures before <= after <==> NothingReopened(candles, source, target, earlier, later)
  {
    if NothingReopened(candles, source, target, earlier, later) {
      var cut := earlier - Delta(target) + 1;
      forall t ensures At(before, t) == if t < cut then At(after, t) else [] {
        SameBelowCut(candles, before, after, source, target, earlier, later, t);
      }
      PrefixByCut(before, after, cut);
    } else {
      var b :| CompleteAt(candles, source, target, earlier, b)
        && BucketReopened(candles, source, target, earlier, later, b);
      ReopenedIsNoPrefix(candles, before, after, source, target, earlier, later, b);
    }
  }

  /** On a grid-aligned series nothing already given out is ever taken back. */
  lemma AlignedEarlierIsPrefix(
    candles: seq<Candle>, before: seq<Candle>, after: seq<Candle>,
    source: Timeframe, target: Timeframe, earlier: int, later: Option<int>)
    requires Conversion(source, target).Some? && NoLaterThan(earlier, later)
    requires IsResampled(before, UsableRows(candles, Delta(source), Some(earlier)), source, target)
    requires IsResampled(after, UsableRows(candles, Delta(source), later), source, target)
    requires forall c | c in candles :: c.timestamp % Delta(source) == 0
    ensures before <= after
  {
    forall b | CompleteAt(candles, source, target, earlier, b)
      ensures !BucketReopened(candles, source, target, earlier, later, b)
    {
      CompleteHasClosed(candles, source, target, earlier, b);
      forall c | c in candles ensures !LateInto(c, Delta(source), target, earlier, later, b) {
        AlignedIsNotLate(c, source, target, earlier, later, b);
      }
    }
    EarlierIsPrefix(candles, before, after, source, target, earlier, later);
  }

  lemma MultiplesApart(step: int, p: int, r: int)
    requires step > 0 && step * p < step * r
    ensures step * p + step <= step * r
  {
    ProductOrder(step, p, r);
    ProductOrder(step, p + 1, r);
    assert step * (p + 1) == step * p + step;
  }

  lemma EndOfBucket(step: int, n: int, q: int)
    ensures (n * step) * q + n * step == step * (n * q + n)
  {
    assert (n * step) * q == step * (n * q);
    assert step * (n * q + n) == step * (n * q) + step * n;
  }

  lemma AlignedSlotFits(t: int, b: int, step: int, n: int)
    requires step > 0 && n * step > 0 && t % step == 0 && b % (n * step) == 0 && t < b + n * step
    ensures t + step <= b + n * step
  {
    var p, q := t / step, b / (n * step);
    assert t == step * p && b == (n * step) * q;
    EndOfBucket(step, n, q);
    MultiplesApart(step, p, n * q + n);
  }

  lemma AlignedIsNotLate(c: Candle, source: Timeframe, target: Timeframe, earlier: int, later: Option<int>, b: int)
    requires Conversion(source, target).Some?
    requires c.timestamp % Delta(source) == 0 && b % Delta(target) == 0 && b + Delta(target) <= earlier
    ensures !LateInto(c, Delta(source), target, earlier, later, b)
  {
    ConversionFillsBucket(source, target);
    if BucketStart(c.timestamp, target) == b {
      FloorSpans(c.timestamp, target);
      AlignedSlotFits(c.timestamp, b, Delta(source), Conversion(source, target).value);
    }
  }

  // ------------------------------------------------ a bar that is taken back

  function QuarterHour(minute: int): Candle {
    Candle(minute * MINUTE, "EURUSD", M15, 1.0, 1.0, 1.0, 1.0, None, None, None, true, "feed", None, None)
  }

  function Punctual(): seq<Candle> { [QuarterHour(0)] + [QuarterHour(15)] }

  /** Quarter hours stamped at 0, 15 and 20 minutes past midnight: the last one is off the grid. */
  function Stray(): seq<Candle> { Punctual() + [QuarterHour(20)] }

  lemma OneUsable(c: Candle, step: int, asOf: Option<int>)
    ensures UsableRows([c], step, asOf) == if Usable(c, step, asOf) then [c] else []
  {
    assert [c][1..] == [];
  }

  lemma StrayUsable()
    ensures UsableRows(Stray(), Delta(M15), Some(30 * MINUTE)) == Punctual()
  {
    var asOf := Some(30 * MINUTE);
    UsableRowsConcat(Punctual(), [QuarterHour(20)], Delta(M15), asOf);
    UsableRowsConcat([QuarterHour(0)], [QuarterHour(15)], Delta(M15), asOf);
    OneUsable(QuarterHour(0), Delta(M15), asOf);
    OneUsable(QuarterHour(15), Delta(M15), asOf);
    OneUsable(QuarterHour(20), Delta(M15), asOf);
  }

  lemma PunctualAt(t: int)
    ensures At(Punctual(), t)
         == if t == 0 then [QuarterHour(0)] else if t == 15 * MINUTE then [QuarterHour(15)] else []
  {
    AtConcat([QuarterHour(0)], [QuarterHour(15)], t);
    assert [QuarterHour(0)][1..] == [] && [QuarterHour(15)][1..] == [];
  }

  lemma PunctualFills()
    ensures Full(Punctual(), 0, Delta(M15), 2)
  {
    forall t { PunctualAt(t); }
    assert Full(Punctual(), 15 * MINUTE, Delta(M15), 1) by {
      assert Full(Punctual(), 30 * MINUTE, Delta(M15), 0);
    }
  }

  lemma StrayReopens()
    ensures CompleteAt(Stray(), M15, M30, 30 * MINUTE, 0)
    ensures BucketReopened(Stray(), M15, M30, 30 * MINUTE, None, 0)
  {
    StrayUsable();
    PunctualFills();
    assert QuarterHour(20) in Stray() && LateInto(QuarterHour(20), Delta(M15), M30, 30 * MINUTE, None, 0);
  }

  /** At half past, the first half hour has its bar; once the stray candle has closed too, it has none. */
  lemma StrayTakesBarBack(before: seq<Candle>, after: seq<Candle>)
    requires IsResampled(before, UsableRows(Stray(), Delta(M15), Some(30 * MINUTE)), M15, M30)
    requires IsResampled(after, UsableRows(Stray(), Delta(M15), None), M15, M30)
    ensures At(before, 0) != [] && At(after, 0) == [] && !(before <= after)
  {
    StrayReopens();
    ReopenedIsNoPrefix(Stray(), before, after, M15, M30, 30 * MINUTE, None, 0);
  }
}
