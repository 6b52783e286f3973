/** Brier score and expected calibration error (research/metrics.py:154-181, validation/quality.py:276-280). */
module Calibration {
  import opened Prelude

  /** An observation with the confidence that was stated and whether it turned out right, if known. */
  datatype Observation = Observation(confidence: Option<real>, correct: Option<bool>)

  datatype Scored = Scored(confidence: real, correct: bool)

  datatype Bucket = Bucket(lower: real, upper: real, samples: nat, meanConfidence: real, observedAccuracy: real)

  datatype Caution = InsufficientData | Uncalibrated

  datatype Report = Report(
    samples: nat, brier: Option<real>, error: Option<real>, buckets: seq<Bucket>, caution: Option<Caution>)

  function ScoredRows(observations: seq<Observation>): seq<Scored> {
    if observations == [] then []
    else
      var first, rest := observations[0], ScoredRows(observations[1..]);
      if first.confidence.Some? && first.correct.Some?
      then [Scored(first.confidence.value, first.correct.value)] + rest
      else rest
  }

  function Hit(row: Scored): real { if row.correct then 1.0 else 0.0 }

  /** How far the stated confidence overshot the outcome. */
  function Overshoot(row: Scored): real { row.confidence - Hit(row) }

  function SumOf(rows: seq<Scored>, f: Scored -> real): real {
    if rows == [] then 0.0 else f(rows[0]) + SumOf(rows[1..], f)
  }

  function Confidence(row: Scored): real { row.confidence }

  function SquaredOvershoot(row: Scored): real { Overshoot(row) * Overshoot(row) }

  function AbsOvershoot(row: Scored): real { Abs(Overshoot(row)) }

  function Mean(rows: seq<Scored>, f: Scored -> real): real
    requires rows != []
  {
    SumOf(rows, f) / |rows| as real
  }

  // ------------------------------------------------------------------- bins

  /** The bin test of the source; the last bin also takes confidence 1. */
  predicate InBin(confidence: real, index: int, bins: int)
    requires bins > 0
  {
    || index as real / bins as real <= confidence < (index + 1) as real / bins as real
    || (index == bins - 1 && confidence == 1.0)
  }

  function Bin(rows: seq<Scored>, index: int, bins: int): seq<Scored>
    requires bins > 0
  {
    if rows == [] then []
    else if InBin(rows[0].confidence, index, bins) then [rows[0]] + Bin(rows[1..], index, bins)
    else Bin(rows[1..], index, bins)
  }

  function BinError(rows: seq<Scored>, index: int, bins: int): real
    requires bins > 0 && rows != []
  {
    var bin := Bin(rows, index, bins);
    if bin == [] then 0.0 else WeightedMiss(bin, |rows| as real)
  }

  /** How far the mean confidence of a bin is from its hit rate, weighted by its share of n rows. */
  function WeightedMiss(bin: seq<Scored>, n: real): real
    requires bin != [] && n > 0.0
  {
    |bin| as real / n * Abs(Mean(bin, Confidence) - Mean(bin, Hit))
  }

  function CalibrationError(rows: seq<Scored>, bins: int, upTo: nat): real
    requires bins > 0 && rows != []
  {
    if upTo == 0 then 0.0 else CalibrationError(rows, bins, upTo - 1) + BinError(rows, upTo - 1, bins)
  }

  /** The reported bins: those that hold a row. */
  function Buckets(rows: seq<Scored>, bins: int, upTo: nat): seq<Bucket>
    requires bins > 0
  {
    if upTo == 0 then []
    else
      var bin := Bin(rows, upTo - 1, bins);
      Buckets(rows, bins, upTo - 1) + if bin == [] then [] else [BucketOf(bin, upTo - 1, bins)]
  }

  function BucketOf(bin: seq<Scored>, index: int, bins: int): Bucket
    requires bin != [] && bins > 0
  {
    Bucket(index as real / bins as real, (index + 1) as real / bins as real, |bin|, Mean(bin, Confidence),
           Mean(bin, Hit))
  }

  /** The expected calibration error over all bins; without bins there is nothing to add up. */
  function TotalError(rows: seq<Scored>, bins: int): real
    requires rows != []
  {
    if bins > 0 then CalibrationError(rows, bins, bins) else 0.0
  }

  function AllBuckets(rows: seq<Scored>, bins: int): seq<Bucket> { if bins > 0 then Buckets(rows, bins, bins) else [] }

  function CautionFor(samples: nat): Option<Caution> { if samples < 30 then Some(Uncalibrated) else None }

  /** `calibration`, for any number of bins. */
  method Calibrate(observations: seq<Observation>, bins: int) returns (report: Report)
    ensures ScoredRows(observations) == [] ==> report == Report(0, None, None, [], Some(InsufficientData))
    ensures var rows := ScoredRows(observations);
      rows != [] ==> report == Report(|rows|, Some(Mean(rows, SquaredOvershoot)), Some(TotalError(rows, bins)),
                                      AllBuckets(rows, bins), CautionFor(|rows|))
  {
    var rows := ScoredRows(observations);
    if rows == [] { return Report(0, None, None, [], Some(InsufficientData)); }
    var brier := Mean(rows, SquaredOvershoot);
    var error: real, buckets: seq<Bucket> := 0.0, [];
    if bins > 0 { error, buckets := SumUp(rows, bins); }
    return Report(|rows|, Some(brier), Some(error), buckets, CautionFor(|rows|));
  }

  /** The loop over the bins. */
  method SumUp(rows: seq<Scored>, bins: int) returns (error: real, buckets: seq<Bucket>)
    requires rows != [] && bins > 0
    ensures error == CalibrationError(rows, bins, bins) && buckets == Buckets(rows, bins, bins)
  {
    error, buckets := 0.0, [];
    for index := 0 to bins
      invariant error == CalibrationError(rows, bins, index)
      invariant buckets == Buckets(rows, bins, index)
    {
      var bucket := Bin(rows, index, bins);
      if bucket == [] { continue; }
      error := error + WeightedMiss(bucket, |rows| as real);
      buckets := buckets + [BucketOf(bucket, index, bins)];
    }
  }

  // ------------------------------------------------------- the bins partition

  ghost predicate Probabilities(rows: seq<Scored>) { forall r | r in rows :: 0.0 <= r.confidence <= 1.0 }

  /** The one bin of a confidence. */
  function Home(confidence: real, bins: int): int {
    if confidence == 1.0 then bins - 1 else (confidence * bins as real).Floor
  }

  lemma FloorIs(y: real, index: int)
    ensures index as real <= y < (index + 1) as real <==> index == y.Floor
  {
  }

  lemma ScaledRange(confidence: real, n: real)
    requires n > 0.0 && 0.0 <= confidence <= 1.0
    ensures 0.0 <= confidence * n <= n && (confidence < 1.0 ==> confidence * n < n)
  {
    FactorSign(n, confidence);
    FactorSign(n, 1.0 - confidence);
    FactorSign(n, confidence - 1.0);
    assert n * (1.0 - confidence) == n - confidence * n;
    assert n * (confidence - 1.0) == confidence * n - n;
  }

  lemma BinByFloor(confidence: real, bins: int, index: int)
    requires bins > 0
    ensures index as real / bins as real <= confidence < (index + 1) as real / bins as real
      <==> index == (confidence * bins as real).Floor
  {
    DivisionCompare(index as real, bins as real, confidence);
    DivisionCompare((index + 1) as real, bins as real, confidence);
    FloorIs(confidence * bins as real, index);
  }

  lemma FloorRange(y: real, bins: int)
    requires 0.0 <= y < bins as real
    ensures 0 <= y.Floor < bins
  {
  }

  lemma BelowTop(bins: int, index: int)
    requires 0 <= index < bins
    ensures (index + 1) as real / bins as real <= 1.0
  {
    DivisionCompare((index + 1) as real, bins as real, 1.0);
  }

  lemma HomeIsTheOnlyBin(confidence: real, bins: int, index: int)
    requires bins > 0 && 0.0 <= confidence <= 1.0 && 0 <= index < bins
    ensures 0 <= Home(confidence, bins) < bins
    ensures InBin(confidence, index, bins) <==> index == Home(confidence, bins)
  {
    if confidence == 1.0 {
      BelowTop(bins, index);
    } else {
      BinByFloor(confidence, bins, index);
      ScaledRange(confidence, bins as real);
      FloorRange(confidence * bins as real, bins);
    }
  }

  /** How many rows the first bins hold together. */
  function Held(rows: seq<Scored>, bins: int, upTo: nat): nat
    requires bins > 0
  {
    if upTo == 0 then 0 else Held(rows, bins, upTo - 1) + |Bin(rows, upTo - 1, bins)|
  }

  lemma {:induction false} HeldOneMore(rows: seq<Scored>, bins: int, upTo: nat)
    requires rows != [] && Probabilities(rows) && 0 <= upTo <= bins && bins > 0
    ensures Held(rows, bins, upTo)
         == Held(rows[1..], bins, upTo) + if Home(rows[0].confidence, bins) < upTo then 1 else 0
  {
    if upTo > 0 {
      HeldOneMore(rows, bins, upTo - 1);
      HomeIsTheOnlyBin(rows[0].confidence, bins, upTo - 1);
    } else {
      HomeIsTheOnlyBin(rows[0].confidence, bins, 0);
    }
  }

  /** Every scored row is counted in exactly one bin. */
  lemma {:induction false} BinsPartition(rows: seq<Scored>, bins: int)
    requires Probabilities(rows) && bins > 0
    ensures Held(rows, bins, bins) == |rows|
  {
    if rows == [] {
      NothingHeld(bins, bins);
    } else {
      BinsPartition(rows[1..], bins);
      HeldOneMore(rows, bins, bins);
      HomeIsTheOnlyBin(rows[0].confidence, bins, 0);
    }
  }

  function SamplesOf(buckets: seq<Bucket>): nat {
    if buckets == [] then 0 else SamplesOf(buckets[..|buckets| - 1]) + buckets[|buckets| - 1].samples
  }

  lemma {:induction false} SamplesAreHeld(rows: seq<Scored>, bins: int, upTo: nat)
    requires bins > 0
    ensures SamplesOf(Buckets(rows, bins, upTo)) == Held(rows, bins, upTo)
  {
    if upTo > 0 {
      SamplesAreHeld(rows, bins, upTo - 1);
      var before, after := Buckets(rows, bins, upTo - 1), Buckets(rows, bins, upTo);
      if Bin(rows, upTo - 1, bins) == [] {
        assert after == before;
      } else {
        assert after[..|after| - 1] == before;
      }
    }
  }

  ghost predicate Between(rows: seq<Scored>, f: Scored -> real, low: real, high: real) {
    forall i | 0 <= i < |rows| :: low <= f(rows[i]) <= high
  }

  lemma {:induction false} SumBetween(rows: seq<Scored>, f: Scored -> real, low: real, high: real, n: real)
    requires n == |rows| as real && Between(rows, f, low, high)
    ensures low * n <= SumOf(rows, f) <= high * n
  {
    if rows != [] {
      SumBetween(rows[1..], f, low, high, n - 1.0);
      assert low * n == low * (n - 1.0) + low && high * n == high * (n - 1.0) + high;
    }
  }

  lemma MeanBetween(rows: seq<Scored>, f: Scored -> real, low: real, high: real)
    requires rows != [] && Between(rows, f, low, high)
    ensures low <= Mean(rows, f) <= high
  {
    SumBetween(rows, f, low, high, |rows| as real);
    DivisionCompare(SumOf(rows, f), |rows| as real, low);
    DivisionCompare(SumOf(rows, f), |rows| as real, high);
  }

  lemma {:induction false} BinIsBetween(rows: seq<Scored>, index: int, bins: int, low: real, high: real)
    requires bins > 0 && low == index as real / bins as real && high == (index + 1) as real / bins as real
    ensures Between(Bin(rows, index, bins), Confidence, low, high) && Between(Bin(rows, index, bins), Hit, 0.0, 1.0)
  {
    if rows != [] {
      BinIsBetween(rows[1..], index, bins, low, high);
      if index == bins - 1 {
        assert high == 1.0;
        DivisionCompare(index as real, bins as real, 1.0);
      }
    }
  }

  /** A reported bucket holds rows, and their mean confidence lies within its bounds. */
  predicate Honest(b: Bucket) {
    b.samples > 0 && b.lower <= b.meanConfidence <= b.upper && 0.0 <= b.observedAccuracy <= 1.0
  }

  lemma {:induction false} BucketsAreHonest(rows: seq<Scored>, bins: int, upTo: nat)
    requires bins > 0
    ensures forall i | 0 <= i < |Buckets(rows, bins, upTo)| :: Honest(Buckets(rows, bins, upTo)[i])
  {
    if upTo > 0 {
      BucketsAreHonest(rows, bins, upTo - 1);
      var index, bin := upTo - 1, Bin(rows, upTo - 1, bins);
      if bin != [] {
        var low, high := index as real / bins as real, (index + 1) as real / bins as real;
        BinIsBetween(rows, index, bins, low, high);
        MeanBetween(bin, Confidence, low, high);
        MeanBetween(bin, Hit, 0.0, 1.0);
      }
    }
  }

  /** The reported buckets account for every scored row, each within its own bounds. */
  lemma BucketsAccountForAll(rows: seq<Scored>, bins: int)
    requires Probabilities(rows) && bins > 0
    ensures SamplesOf(Buckets(rows, bins, bins)) == |rows|
    ensures forall i | 0 <= i < |Buckets(rows, bins, bins)| :: Honest(Buckets(rows, bins, bins)[i])
  {
    SamplesAreHeld(rows, bins, bins);
    BinsPartition(rows, bins);
    BucketsAreHonest(rows, bins, bins);
  }

  lemma {:induction false} NothingHeld(bins: int, upTo: nat)
    requires bins > 0
    ensures Held([], bins, upTo) == 0
  {
    if upTo > 0 { NothingHeld(bins, upTo - 1); }
  }

  // ----------------------------------------------------- the error as a sum of gaps

  /** The sum over the first bins of the absolute overshoot of each bin. */
  function BinnedOvershoot(rows: seq<Scored>, bins: int, upTo: nat): real
    requires bins > 0
  {
    if upTo == 0 then 0.0
    else BinnedOvershoot(rows, bins, upTo - 1) + Abs(SumOf(Bin(rows, upTo - 1, bins), Overshoot))
  }

  function NetOvershoot(rows: seq<Scored>, bins: int, upTo: nat): real
    requires bins > 0
  {
    if upTo == 0 then 0.0
    else NetOvershoot(rows, bins, upTo - 1) + SumOf(Bin(rows, upTo - 1, bins), Overshoot)
  }

  lemma {:induction false} OvershootSplits(rows: seq<Scored>)
    ensures SumOf(rows, Overshoot) == SumOf(rows, Confidence) - SumOf(rows, Hit)
  {
    if rows != [] { OvershootSplits(rows[1..]); }
  }

  lemma AbsScales(x: real, n: real)
    requires n > 0.0
    ensures Abs(x) / n == Abs(x / n)
  {
    DivisionCompare(x, n, 0.0);
    assert (-x) / n == -(x / n);
  }

  lemma BinErrorIsGap(rows: seq<Scored>, index: int, bins: int)
    requires bins > 0 && rows != []
    ensures BinError(rows, index, bins) == Abs(SumOf(Bin(rows, index, bins), Overshoot)) / |rows| as real
  {
    var bin := Bin(rows, index, bins);
    if bin == [] {
      assert Abs(SumOf(bin, Overshoot)) == 0.0;
    } else {
      MeansGap(bin, |rows| as real);
    }
  }

  lemma MeansGap(bin: seq<Scored>, n: real)
    requires bin != [] && n > 0.0
    ensures WeightedMiss(bin, n) == Abs(SumOf(bin, Overshoot)) / n
  {
    OvershootSplits(bin);
    GapOfMeans(SumOf(bin, Confidence), SumOf(bin, Hit), |bin| as real, n);
  }

  lemma GapOfMeans(c: real, h: real, k: real, n: real)
    requires k > 0.0 && n > 0.0
    ensures k / n * Abs(c / k - h / k) == Abs(c - h) / n
  {
    FractionsAdd(c, h, k);
    AbsScales(c - h, k);
    WeightedGap(Abs(c - h), k, n);
  }

  lemma WeightedGap(gap: real, k: real, n: real)
    requires k > 0.0 && n > 0.0
    ensures k / n * (gap / k) == gap / n
  {
    assert k / n * (gap / k) * n == k / n * n * (gap / k) == k * (gap / k) == gap;
  }

  lemma {:induction false} ErrorIsBinnedOvershoot(rows: seq<Scored>, bins: int, upTo: nat)
    requires bins > 0 && rows != []
    ensures CalibrationError(rows, bins, upTo) == BinnedOvershoot(rows, bins, upTo) / |rows| as real
  {
    if upTo > 0 {
      ErrorIsBinnedOvershoot(rows, bins, upTo - 1);
      BinErrorIsGap(rows, upTo - 1, bins);
      FractionsAdd(BinnedOvershoot(rows, bins, upTo - 1),
                   Abs(SumOf(Bin(rows, upTo - 1, bins), Overshoot)), |rows| as real);
    }
  }

  lemma {:induction false} NetBelowBinned(rows: seq<Scored>, bins: int, upTo: nat)
    requires bins > 0
    ensures Abs(NetOvershoot(rows, bins, upTo)) <= BinnedOvershoot(rows, bins, upTo)
  {
    if upTo > 0 { NetBelowBinned(rows, bins, upTo - 1); }
  }

  /** A new row adds to one bin: its overshoot to the net sum, at most its absolute overshoot to the binned sum. */
  lemma {:induction false} OneMoreRow(rows: seq<Scored>, bins: int, upTo: nat)
    requires rows != [] && Probabilities(rows) && 0 <= upTo <= bins && bins > 0
    ensures var inside := Home(rows[0].confidence, bins) < upTo;
      && NetOvershoot(rows, bins, upTo)
         == NetOvershoot(rows[1..], bins, upTo) + (if inside then Overshoot(rows[0]) else 0.0)
      && BinnedOvershoot(rows, bins, upTo)
         <= BinnedOvershoot(rows[1..], bins, upTo) + (if inside then AbsOvershoot(rows[0]) else 0.0)
  {
    if upTo > 0 {
      OneMoreRow(rows, bins, upTo - 1);
      HomeIsTheOnlyBin(rows[0].confidence, bins, upTo - 1);
    } else {
      HomeIsTheOnlyBin(rows[0].confidence, bins, 0);
    }
  }

  lemma {:induction false} NoRows(bins: int, upTo: nat)
    requires bins > 0
    ensures NetOvershoot([], bins, upTo) == 0.0 == BinnedOvershoot([], bins, upTo)
  {
    if upTo > 0 { NoRows(bins, upTo - 1); }
  }

  lemma {:induction false} BinnedBounds(rows: seq<Scored>, bins: int)
    requires Probabilities(rows) && bins > 0
    ensures NetOvershoot(rows, bins, bins) == SumOf(rows, Overshoot)
    ensures BinnedOvershoot(rows, bins, bins) <= SumOf(rows, AbsOvershoot)
  {
    if rows == [] {
      NoRows(bins, bins);
    } else {
      BinnedBounds(rows[1..], bins);
      OneMoreRow(rows, bins, bins);
      HomeIsTheOnlyBin(rows[0].confidence, bins, 0);
    }
  }

  // ------------------------------------------------------------- the inequalities

  lemma {:induction false} AbsAtMostOne(rows: seq<Scored>, n: real)
    requires Probabilities(rows) && n == |rows| as real
    ensures 0.0 <= SumOf(rows, AbsOvershoot) <= n
  {
    if rows != [] {
      AbsAtMostOne(rows[1..], n - 1.0);
      assert rows[0] in rows;
    }
  }

  /** (sum of |d|) squared is at most n times the sum of d squared. */
  lemma {:induction false} SquareOfSum(rows: seq<Scored>, n: real) returns (total: real, squares: real)
    requires n == |rows| as real
    ensures total == SumOf(rows, AbsOvershoot) && squares == SumOf(rows, SquaredOvershoot)
    ensures total * total <= n * squares && squares >= 0.0
  {
    if rows == [] {
      total, squares := 0.0, 0.0;
    } else {
      var m, a := n - 1.0, AbsOvershoot(rows[0]);
      var s, q := SquareOfSum(rows[1..], m);
      total, squares := s + a, q + a * a;
      assert a * a == SquaredOvershoot(rows[0]) >= 0.0;
      if m > 0.0 {
        OneMoreSquare(s, q, a, m);
      } else {
        assert rows[1..] == [];
      }
    }
  }

  lemma OneMoreSquare(s: real, q: real, a: real, m: real)
    requires m > 0.0 && s * s <= m * q
    ensures (s + a) * (s + a) <= (m + 1.0) * (q + a * a)
  {
    var d := s - m * a;
    assert 0.0 <= d * d == s * s - 2.0 * m * (s * a) + m * m * (a * a);
    assert m * (2.0 * (s * a)) <= m * (q + m * (a * a)) by {
      assert m * (q + m * (a * a)) == m * q + m * m * (a * a);
    }
    FactorSign(m, q + m * (a * a) - 2.0 * (s * a));
    assert m * (q + m * (a * a) - 2.0 * (s * a)) == m * (q + m * (a * a)) - m * (2.0 * (s * a));
    assert (s + a) * (s + a) == s * s + 2.0 * (s * a) + a * a;
    assert (m + 1.0) * (q + a * a) == m * q + q + m * (a * a) + a * a;
  }

  /** `calibration_gap` of the model quality report, before display rounding. */
  function CalibrationGap(rows: seq<Scored>): real
    requires rows != []
  {
    Mean(rows, Confidence) - Mean(rows, Hit)
  }

  /**
   * The plain gap is at most the expected calibration error, which is at most one, and its square
   * is at most the Brier score.
   */
  lemma CalibrationInequalities(rows: seq<Scored>, bins: int)
    requires rows != [] && Probabilities(rows) && bins > 0
    ensures Abs(CalibrationGap(rows)) <= CalibrationError(rows, bins, bins) <= 1.0
    ensures CalibrationError(rows, bins, bins) * CalibrationError(rows, bins, bins) <= Mean(rows, SquaredOvershoot)
  {
    var gap, error, brier := CalibrationParts(rows, bins);
    assert error * error <= brier;
  }

  lemma CalibrationParts(rows: seq<Scored>, bins: int) returns (gap: real, error: real, brier: real)
    requires rows != [] && Probabilities(rows) && bins > 0
    ensures gap == CalibrationGap(rows) && error == CalibrationError(rows, bins, bins)
    ensures brier == Mean(rows, SquaredOvershoot)
    ensures Abs(gap) <= error <= 1.0 && error * error <= brier
  {
    var n := |rows| as real;
    gap, error, brier := OvershootMeans(rows, bins, n);
    GapIsMeanOvershoot(rows, n);
    ErrorIsBinnedOvershoot(rows, bins, bins);
  }

  lemma GapIsMeanOvershoot(rows: seq<Scored>, n: real)
    requires rows != [] && n == |rows| as real
    ensures CalibrationGap(rows) == SumOf(rows, Overshoot) / n
  {
    OvershootSplits(rows);
    FractionsAdd(SumOf(rows, Confidence), SumOf(rows, Hit), n);
  }

  lemma OvershootMeans(rows: seq<Scored>, bins: int, n: real) returns (gap: real, error: real, brier: real)
    requires rows != [] && Probabilities(rows) && bins > 0 && n == |rows| as real
    ensures gap == SumOf(rows, Overshoot) / n && error == BinnedOvershoot(rows, bins, bins) / n
    ensures brier == SumOf(rows, SquaredOvershoot) / n
    ensures Abs(gap) <= error <= 1.0 && error * error <= brier
  {
    var total, squares := SquareOfSum(rows, n);
    var net, binned := SumOf(rows, Overshoot), BinnedOvershoot(rows, bins, bins);
    BinnedBounds(rows, bins);
    NetBelowBinned(rows, bins, bins);
    AbsAtMostOne(rows, n);
    gap, error, brier := MeansOfBounds(net, binned, total, squares, n);
  }

  lemma MeansOfBounds(net: real, binned: real, total: real, squares: real, n: real)
    returns (gap: real, error: real, brier: real)
    requires n > 0.0 && Abs(net) <= binned <= total <= n && total * total <= n * squares
    ensures gap == net / n && error == binned / n && brier == squares / n
    ensures Abs(gap) <= error <= 1.0 && error * error <= brier
  {
    gap, error, brier := net / n, binned / n, squares / n;
    AbsScales(net, n);
    FactorOrder(n, Abs(net), binned);
    assert n * binned == binned * n && n * Abs(net) == Abs(net) * n;
    MeansCompare(Abs(net), n, binned, n);
    DivisionCompare(binned, n, 1.0);
    SquareOfMean(binned, total, squares, n);
  }

  lemma SquareOfMean(x: real, s: real, q: real, n: real)
    requires n > 0.0 && 0.0 <= x <= s && s * s <= n * q
    ensures x / n * (x / n) <= q / n
  {
    var y := x / n;
    assert x == y * n;
    assert x * x <= s * s by {
      FactorOrder(s, x, s);
      FactorOrder(x, x, s);
      assert s * x == x * s;
    }
    assert n * (y * y * n) == x * x <= n * q;
    FactorSign(n, q - y * y * n);
    assert n * (q - y * y * n) == n * q - n * (y * y * n);
    DivisionCompare(q, n, y * y);
  }
}
