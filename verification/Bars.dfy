/** Folding the candles of a bucket into one bar, and why layers of bars compose. */
module Bars {
  import opened Prelude
  import opened Candles
  import opened Slots

  /** The market figures of a candle, or of the bar that replaces several candles. */
  datatype Figures = Figures(
    open: real,
    high: real,
    low: real,
    close: real,
    volume: Option<real>,
    tickVolume: Option<real>,
    spread: Option<real>)

  function FiguresOf(c: Candle): Figures {
    Figures(c.open, c.high, c.low, c.close, c.volume, c.tickVolume, c.spread)
  }

  function HighestOf(rows: seq<Candle>): real
    requires rows != []
  {
    if |rows| == 1 then rows[0].high else Max(rows[0].high, HighestOf(rows[1..]))
  }

  function LowestOf(rows: seq<Candle>): real
    requires rows != []
  {
    if |rows| == 1 then rows[0].low else Min(rows[0].low, LowestOf(rows[1..]))
  }

  /** The volumes that are present. */
  function Volumes(rows: seq<Candle>): seq<real> {
    if rows == [] then []
    else if rows[0].volume.Some? then [rows[0].volume.value] + Volumes(rows[1..])
    else Volumes(rows[1..])
  }

  function TickVolumes(rows: seq<Candle>): seq<real> {
    if rows == [] then []
    else if rows[0].tickVolume.Some? then [rows[0].tickVolume.value] + TickVolumes(rows[1..])
    else TickVolumes(rows[1..])
  }

  /** The sum of what is present, or nothing when nothing is. */
  function Total(values: seq<real>): Option<real> {
    if values == [] then None else Some(Sum(values))
  }

  function Fold(rows: seq<Candle>): Figures
    requires rows != []
  {
    Figures(rows[0].open, HighestOf(rows), LowestOf(rows), rows[|rows| - 1].close,
            Total(Volumes(rows)), Total(TickVolumes(rows)), rows[|rows| - 1].spread)
  }

  // ------------------------------------------------------- folding in two parts

  function Plus(a: Option<real>, b: Option<real>): Option<real> {
    match (a, b)
    case (None, _) => b
    case (_, None) => a
    case (Some(x), Some(y)) => Some(x + y)
  }

  function Join(a: Figures, b: Figures): Figures {
    Figures(a.open, Max(a.high, b.high), Min(a.low, b.low), b.close,
            Plus(a.volume, b.volume), Plus(a.tickVolume, b.tickVolume), b.spread)
  }

  lemma TotalConcat(a: seq<real>, b: seq<real>)
    ensures Total(a + b) == Plus(Total(a), Total(b))
  {
    SumConcat(a, b);
    if a == [] { assert a + b == b; }
    if b == [] { assert a + b == a; }
  }

  lemma {:induction false} VolumesConcat(a: seq<Candle>, b: seq<Candle>)
    ensures Volumes(a + b) == Volumes(a) + Volumes(b)
    ensures TickVolumes(a + b) == TickVolumes(a) + TickVolumes(b)
  {
    if a == [] {
      assert a + b == b;
    } else {
      assert (a + b)[1..] == a[1..] + b;
      VolumesConcat(a[1..], b);
    }
  }

  lemma {:induction false} ExtremesConcat(a: seq<Candle>, b: seq<Candle>)
    requires a != [] && b != []
    ensures HighestOf(a + b) == Max(HighestOf(a), HighestOf(b))
    ensures LowestOf(a + b) == Min(LowestOf(a), LowestOf(b))
  {
    assert (a + b)[1..] == a[1..] + b;
    if |a| == 1 {
      assert a[1..] + b == b;
    } else {
      ExtremesConcat(a[1..], b);
    }
  }

  lemma FoldConcat(a: seq<Candle>, b: seq<Candle>)
    requires a != [] && b != []
    ensures Fold(a + b) == Join(Fold(a), Fold(b))
  {
    ExtremesConcat(a, b);
    VolumesConcat(a, b);
    TotalConcat(Volumes(a), Volumes(b));
    TotalConcat(TickVolumes(a), TickVolumes(b));
  }

  lemma FoldOne(c: Candle)
    ensures Fold([c]) == FiguresOf(c)
  {
    assert [c][1..] == [];
    if c.volume.Some? { SumOne(c.volume.value); assert Volumes([c]) == [c.volume.value]; }
    if c.tickVolume.Some? { SumOne(c.tickVolume.value); assert TickVolumes([c]) == [c.tickVolume.value]; }
  }

  /** Prices that make a candle: the open and the close lie between the low and the high. */
  predicate ValidPrices(f: Figures) { f.low <= f.open <= f.high && f.low <= f.close <= f.high }

  lemma {:induction false} FoldIsValid(rows: seq<Candle>)
    requires rows != [] && forall c | c in rows :: ValidPrices(FiguresOf(c))
    ensures ValidPrices(Fold(rows))
  {
    FoldOne(rows[0]);
    if |rows| == 1 {
      assert rows == [rows[0]];
    } else {
      FoldIsValid(rows[1..]);
      FoldConcat([rows[0]], rows[1..]);
      assert rows == [rows[0]] + rows[1..];
      assert ValidPrices(FiguresOf(rows[0]));
    }
  }

  // ------------------------------------------------------------- layers compose

  /** What the bars hold at instant t when each stands for n complete slots of the rows. */
  ghost predicate BarAt(bars: seq<Candle>, rows: seq<Candle>, step: int, n: nat, t: int)
    requires step > 0 && n > 0
  {
    if t % (n * step) == 0 && Full(rows, t, step, n)
    then |At(bars, t)| == 1 && |SlotRows(rows, t, step, n)| > 0
      && FiguresOf(At(bars, t)[0]) == Fold(SlotRows(rows, t, step, n))
    else At(bars, t) == []
  }

  /** The bars are exactly the complete buckets of n slots, each folded into its figures. */
  ghost predicate Summarises(bars: seq<Candle>, rows: seq<Candle>, step: int, n: nat)
    requires step > 0 && n > 0
  {
    forall t :: BarAt(bars, rows, step, n, t)
  }

  lemma BetweenMultiples(b: int, t: int, span: int)
    requires span > 0 && b % span == 0 && b < t < b + span
    ensures t % span != 0
  {
    assert b == span * (b / span);
    DivisionIs(t, span, b / span, t - b);
  }

  lemma NextMultiple(b: int, span: int)
    requires span > 0 && b % span == 0
    ensures (b + span) % span == 0
  {
    assert b == span * (b / span);
    assert b + span == span * (b / span + 1);
    DivisionIs(b + span, span, b / span + 1, 0);
  }

  lemma {:induction false} FullSplit(rows: seq<Candle>, b: int, step: int, n: nat, m: nat)
    ensures Full(rows, b, step, n + m) <==> Full(rows, b, step, n) && Full(rows, b + n * step, step, m)
    ensures SlotRows(rows, b, step, n + m) == SlotRows(rows, b, step, n) + SlotRows(rows, b + n * step, step, m)
    decreases n
  {
    if n > 0 {
      assert b + step + (n - 1) * step == b + n * step;
      FullSplit(rows, b + step, step, n - 1, m);
    }
  }

  predicate FoldAlike(x: seq<Candle>, y: seq<Candle>) {
    if x == [] then y == [] else y != [] && Fold(x) == Fold(y)
  }

  /** A bar before others folds like its rows before theirs. */
  lemma JoinLayers(bar: Candle, bars: seq<Candle>, first: seq<Candle>, others: seq<Candle>)
    requires first != [] && FiguresOf(bar) == Fold(first) && FoldAlike(bars, others)
    ensures FoldAlike([bar] + bars, first + others)
  {
    FoldOne(bar);
    if bars == [] {
      assert [bar] + bars == [bar] && first + others == first;
    } else {
      FoldConcat([bar], bars);
      FoldConcat(first, others);
    }
  }

  /** A bucket of m bars is full exactly when its k rows are, and then it folds to the same figures. */
  ghost predicate Layered(bars: seq<Candle>, rows: seq<Candle>, b: int, span: int, m: nat, step: int, k: nat) {
    && (Full(bars, b, span, m) <==> Full(rows, b, step, k))
    && (Full(bars, b, span, m) ==> FoldAlike(SlotRows(bars, b, span, m), SlotRows(rows, b, step, k)))
  }

  /** The slot of one bar: it holds the bar exactly when its n rows are complete, and nothing lies beside it. */
  ghost predicate OneBar(bars: seq<Candle>, rows: seq<Candle>, b: int, span: int, step: int, n: nat) {
    && (|At(bars, b)| == 1 <==> Full(rows, b, step, n))
    && (forall t | b < t < b + span :: At(bars, t) == [])
    && (|At(bars, b)| == 1 ==>
          SlotRows(rows, b, step, n) != [] && FiguresOf(At(bars, b)[0]) == Fold(SlotRows(rows, b, step, n)))
  }

  lemma BarIsOne(bars: seq<Candle>, rows: seq<Candle>, b: int, span: int, step: int, n: nat)
    requires step > 0 && n > 0 && span == n * step && span > 0
    requires Summarises(bars, rows, step, n) && b % span == 0
    ensures OneBar(bars, rows, b, span, step, n)
  {
    assert BarAt(bars, rows, step, n, b);
    forall t | b < t < b + span ensures At(bars, t) == [] {
      BetweenMultiples(b, t, span);
      assert BarAt(bars, rows, step, n, t);
    }
  }

  /** One bar before a layer of others, and its n rows before theirs. */
  lemma NextLayer(
    bars: seq<Candle>, rows: seq<Candle>, b: int, span: int, m: nat, step: int, n: nat, others: nat, all: nat)
    requires m > 0 && OneBar(bars, rows, b, span, step, n)
    requires Layered(bars, rows, b + span, span, m - 1, step, others)
    requires Full(rows, b, step, all) <==> Full(rows, b, step, n) && Full(rows, b + span, step, others)
    requires SlotRows(rows, b, step, all) == SlotRows(rows, b, step, n) + SlotRows(rows, b + span, step, others)
    ensures Layered(bars, rows, b, span, m, step, all)
  {
    if Full(bars, b, span, m) {
      assert At(bars, b) == [At(bars, b)[0]];
      JoinLayers(At(bars, b)[0], SlotRows(bars, b + span, span, m - 1),
                 SlotRows(rows, b, step, n), SlotRows(rows, b + span, step, others));
    }
  }

  lemma {:induction false} FullLayers(
    bars: seq<Candle>, rows: seq<Candle>, b: int, step: int, n: nat, span: int, m: nat)
    requires step > 0 && n > 0 && span == n * step && span > 0
    requires Summarises(bars, rows, step, n) && b % span == 0
    ensures Layered(bars, rows, b, span, m, step, m * n)
    decreases m
  {
    if m > 0 {
      assert m * n == n + (m - 1) * n;
      FullSplit(rows, b, step, n, (m - 1) * n);
      BarIsOne(bars, rows, b, span, step, n);
      NextMultiple(b, span);
      FullLayers(bars, rows, b + span, step, n, span, m - 1);
      NextLayer(bars, rows, b, span, m, step, n, (m - 1) * n, m * n);
    }
  }

  lemma MultipleOfProduct(t: int, span: int, m: nat)
    requires span > 0 && m > 0 && m * span > 0 && t % (m * span) == 0
    ensures t % span == 0
  {
    var q := t / (m * span);
    assert t == (m * span) * q == span * (m * q);
    DivisionIs(t, span, m * q, 0);
  }

  /**
   * Layering preserves meaning: bars of bars of the rows are bars of the rows, for exactly
   * the same buckets and with the same open, high, low, close, volumes and spread.
   */
  lemma LayersCompose(outer: seq<Candle>, inner: seq<Candle>, rows: seq<Candle>, step: int, n: nat, span: int, m: nat)
    requires step > 0 && n > 0 && m > 0 && span == n * step && span > 0
    requires Summarises(inner, rows, step, n) && Summarises(outer, inner, span, m)
    ensures m * n > 0 && Summarises(outer, rows, step, m * n)
  {
    assert m * n > 0;
    assert (m * n) * step == m * (n * step) == m * span > 0;
    forall t ensures BarAt(outer, rows, step, m * n, t) {
      assert BarAt(outer, inner, span, m, t);
      if t % (m * span) == 0 {
        MultipleOfProduct(t, span, m);
        FullLayers(inner, rows, t, step, n, span, m);
      }
    }
  }
}
