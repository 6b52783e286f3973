/** The mean of the worst outcomes (research/metrics.py:144-151 and validation/dca_validation.py:39-45). */
module TailLoss {
  import opened Prelude

  /** Python's `int`: towards zero. */
  function Truncated(x: real): int { if x >= 0.0 then x.Floor else -(-x).Floor }

  /** Python's `round` to an integer: halves go to the even neighbour. */
  function Rounded(x: real): int {
    var floor := x.Floor;
    var rest := x - floor as real;
    if rest < 0.5 then floor
    else if rest > 0.5 then floor + 1
    else if floor % 2 == 0 then floor else floor + 1
  }

  /** The mean of the `count` smallest values, or of all of them when there are fewer. */
  function MeanOfSmallest(values: seq<real>, count: int): real
    requires values != [] && count >= 1
  {
    var ordered := SortBy(values, Itself);
    SortByOrders(values, Itself);
    var tail := ordered[..MinInt(count, |ordered|)];
    Sum(tail) / |tail| as real
  }

  function TailLoss(outcomes: seq<real>, quantile: real): Option<real> {
    if outcomes == [] then None
    else Some(MeanOfSmallest(outcomes, MaxInt(1, Truncated(|outcomes| as real * quantile))))
  }

  /** `_tail`, before its display rounding. */
  function DcaTail(values: seq<real>, fraction: real): Option<real> {
    if values == [] then None
    else Some(MeanOfSmallest(values, MaxInt(1, Rounded(|values| as real * fraction))))
  }

  // ---------------------------------------------------------- the least sum

  ghost predicate Ascending(s: seq<real>) {
    s == [] || ((forall i | 0 <= i < |s| :: s[0] <= s[i]) && Ascending(s[1..]))
  }

  lemma {:induction false} SortedIsAscending(s: seq<real>)
    requires SortedBy(s, Itself)
    ensures Ascending(s)
  {
    if s != [] {
      SortedIsAscending(s[1..]);
      forall i | 0 <= i < |s| ensures s[0] <= s[i] {
        assert Itself(s[0]) <= Itself(s[i]);
      }
    }
  }

  lemma SumAround(a: seq<real>, x: real, b: seq<real>)
    ensures Sum(a + ([x] + b)) == x + Sum(a + b)
  {
    SumConcat(a, [x] + b);
    SumConcat([x], b);
    SumOne(x);
    SumConcat(a, b);
  }

  lemma SumWithout(s: seq<real>, i: nat)
    requires i < |s|
    ensures Sum(s) == s[i] + Sum(s[..i] + s[i + 1..])
    ensures multiset(s) == multiset{s[i]} + multiset(s[..i] + s[i + 1..])
  {
    SplitAt(s, i);
    SumAround(s[..i], s[i], s[i + 1..]);
    MembersAround(s[..i], s[i], s[i + 1..]);
  }

  lemma SplitAt(s: seq<real>, i: nat)
    requires i < |s|
    ensures s == s[..i] + ([s[i]] + s[i + 1..])
  {
  }

  lemma MembersAround(a: seq<real>, x: real, b: seq<real>)
    ensures multiset(a + ([x] + b)) == multiset{x} + multiset(a + b)
  {
  }

  /** Any selection from an ascending sequence sums to at least its first elements. */
  lemma {:induction false} LeastSum(s: seq<real>, pick: seq<real>)
    requires Ascending(s) && multiset(pick) <= multiset(s)
    ensures |pick| <= |s| && Sum(s[..|pick|]) <= Sum(pick)
  {
    if pick != [] {
      var i := DropOne(s, pick);
      var others := pick[..i] + pick[i + 1..];
      SumWithout(pick, i);
      LeastSum(s[1..], others);
      assert s[..|pick|][1..] == s[1..][..|others|];
    }
  }

  lemma DropFrom(
    chosen: multiset<real>, all: multiset<real>, x: real, others: multiset<real>, m: real, rest: multiset<real>)
    requires chosen <= all && chosen == multiset{x} + others && all == multiset{m} + rest
    requires x == m || m !in chosen
    ensures others <= rest
  {
    forall y ensures others[y] <= rest[y] {
      assert chosen[y] <= all[y];
      assert chosen[y] == others[y] + if y == x then 1 else 0;
      assert all[y] == rest[y] + if y == m then 1 else 0;
    }
  }

  lemma LeastIsBelow(s: seq<real>, x: real)
    requires Ascending(s) && x in s
    ensures s[0] <= x
  {
    assert s[0] <= s[IndexOf(s, x)];
  }

  lemma Picked(s: seq<real>, pick: seq<real>, x: real)
    requires multiset(pick) <= multiset(s) && x in pick
    ensures x in s
  {
    assert x in multiset(pick);
    assert x in multiset(s);
  }

  /** An element of the selection, none smaller than the least of all, without which the rest needs not the least. */
  lemma DropOne(s: seq<real>, pick: seq<real>) returns (i: nat)
    requires Ascending(s) && multiset(pick) <= multiset(s) && pick != []
    ensures s != [] && i < |pick| && s[0] <= pick[i]
    ensures multiset(pick[..i] + pick[i + 1..]) <= multiset(s[1..])
  {
    Picked(s, pick, pick[0]);
    var m := s[0];
    i := if m in pick then IndexOf(pick, m) else 0;
    Picked(s, pick, pick[i]);
    LeastIsBelow(s, pick[i]);
    SumWithout(pick, i);
    assert s == [m] + s[1..];
    DropFrom(multiset(pick), multiset(s), pick[i], multiset(pick[..i] + pick[i + 1..]), m, multiset(s[1..]));
  }

  ghost function IndexOf(s: seq<real>, x: real): (i: nat)
    requires x in s
    ensures i < |s| && s[i] == x
  {
    var i: nat :| i < |s| && s[i] == x;
    i
  }

  /** Rearranging a sum does not change it. */
  lemma {:induction false} PermutationSum(a: seq<real>, b: seq<real>)
    requires multiset(a) == multiset(b)
    ensures |a| == |b| && Sum(a) == Sum(b)
  {
    if a == [] {
      assert |multiset(b)| == 0;
    } else {
      assert a[0] in multiset(a);
      assert a[0] in b;
      var i := IndexOf(b, a[0]);
      var others := b[..i] + b[i + 1..];
      SumWithout(b, i);
      assert a == [a[0]] + a[1..];
      assert multiset(a[1..]) == multiset(a) - multiset{a[0]} == multiset(others);
      PermutationSum(a[1..], others);
    }
  }

  // ------------------------------------------------------- the tail and the mean

  lemma {:induction false} SumAtLeast(s: seq<real>, n: real, low: real)
    requires n == |s| as real && forall i | 0 <= i < |s| :: low <= s[i]
    ensures n * low <= Sum(s)
  {
    if s != [] {
      SumAtLeast(s[1..], n - 1.0, low);
      assert n * low == low + (n - 1.0) * low;
    }
  }

  lemma {:induction false} SumAtMost(s: seq<real>, n: real, high: real)
    requires n == |s| as real && forall i | 0 <= i < |s| :: s[i] <= high
    ensures Sum(s) <= n * high
  {
    if s != [] {
      SumAtMost(s[1..], n - 1.0, high);
      assert n * high == high + (n - 1.0) * high;
    }
  }

  lemma {:induction false} AscendingSplit(s: seq<real>, k: nat)
    requires Ascending(s) && 0 < k <= |s|
    ensures forall i | 0 <= i < k :: s[0] <= s[i] <= s[k - 1]
    ensures forall i | k <= i < |s| :: s[k - 1] <= s[i]
  {
    if k > 1 {
      AscendingSplit(s[1..], k - 1);
      forall i | 0 <= i < |s| ensures (i < k ==> s[i] <= s[k - 1]) && (k <= i ==> s[k - 1] <= s[i]) {
        if i > 0 { assert s[i] == s[1..][i - 1]; }
        assert s[k - 1] == s[1..][k - 2];
      }
    }
  }

  /** The first k of an ascending sequence have a mean no larger than the first n. */
  lemma PrefixMeans(s: seq<real>, k: nat, n: nat)
    requires Ascending(s) && 0 < k <= n <= |s|
    ensures Sum(s[..k]) / k as real <= Sum(s[..n]) / n as real
  {
    var low, high, pivot := s[..k], s[k..n], s[k - 1];
    AscendingSplit(s, k);
    assert s[..n] == low + high;
    SumConcat(low, high);
    var x, y := k as real, (n - k) as real;
    SumAtMost(low, x, pivot);
    SumAtLeast(high, y, pivot);
    WeighAgainstPivot(Sum(low), Sum(high), pivot, x, y, n as real);
  }

  lemma WeighAgainstPivot(low: real, high: real, pivot: real, k: real, m: real, n: real)
    requires 0.0 < k && 0.0 <= m && n == k + m && low <= k * pivot && m * pivot <= high
    ensures low / k <= (low + high) / n
  {
    assert m * low <= m * (k * pivot) by { FactorOrder(m, low, k * pivot); }
    assert k * (m * pivot) <= k * high by { FactorOrder(k, m * pivot, high); }
    assert m * (k * pivot) == k * (m * pivot);
    assert low * n == low * k + m * low;
    assert (low + high) * k == low * k + k * high;
    MeansCompare(low, k, low + high, n);
  }

  /** The tail is a selection of the outcomes, and no other selection of its size has a smaller mean. */
  lemma TailIsLeastMean(values: seq<real>, count: int, pick: seq<real>)
    requires values != [] && count >= 1
    requires |pick| == MinInt(count, |values|) && multiset(pick) <= multiset(values)
    ensures MeanOfSmallest(values, count) <= Sum(pick) / |pick| as real
  {
    var ordered := SortBy(values, Itself);
    SortByOrders(values, Itself);
    SortedIsAscending(ordered);
    LeastSum(ordered, pick);
    var k := |pick| as real;
    assert Sum(ordered[..|pick|]) * k <= Sum(pick) * k;
    MeansCompare(Sum(ordered[..|pick|]), k, Sum(pick), k);
  }

  /** The selection whose mean the tail is. */
  lemma TailIsAttained(values: seq<real>, count: int) returns (tail: seq<real>)
    requires values != [] && count >= 1
    ensures multiset(tail) <= multiset(values) && |tail| == MinInt(count, |values|)
    ensures MeanOfSmallest(values, count) == Sum(tail) / |tail| as real
  {
    var ordered := SortBy(values, Itself);
    SortByOrders(values, Itself);
    tail := ordered[..MinInt(count, |values|)];
    assert ordered == tail + ordered[|tail|..];
  }

  /** A longer tail is never worse. */
  lemma LongerTailIsMilder(values: seq<real>, count: int, longer: int)
    requires values != [] && 1 <= count <= longer
    ensures MeanOfSmallest(values, count) <= MeanOfSmallest(values, longer)
  {
    SortByOrders(values, Itself);
    SortedIsAscending(SortBy(values, Itself));
    PrefixMeans(SortBy(values, Itself), MinInt(count, |values|), MinInt(longer, |values|));
  }

  lemma TailOfOne(values: seq<real>, worst: real)
    requires worst in values && forall x | x in values :: worst <= x
    ensures MeanOfSmallest(values, 1) == worst
  {
    var ordered := SortBy(values, Itself);
    SortByOrders(values, Itself);
    SortedIsAscending(ordered);
    SameMembers(ordered, values);
    assert ordered[0] in values && worst in ordered;
    assert ordered[0] <= ordered[IndexOf(ordered, worst)];
    assert ordered[..1] == [ordered[0]];
    SumOne(ordered[0]);
  }

  lemma TailOfAll(values: seq<real>, count: int)
    requires values != [] && count >= |values|
    ensures MeanOfSmallest(values, count) == Sum(values) / |values| as real
  {
    var ordered := SortBy(values, Itself);
    SortByOrders(values, Itself);
    assert ordered[..|values|] == ordered;
    PermutationSum(ordered, values);
  }

  /** Both tail measures lie between the worst outcome and the expectancy. */
  lemma TailsBetweenWorstAndMean(values: seq<real>, quantile: real, worst: real)
    requires worst in values && forall x | x in values :: worst <= x
    ensures TailLoss(values, quantile).Some? && DcaTail(values, quantile).Some?
    ensures worst <= TailLoss(values, quantile).value <= Sum(values) / |values| as real
    ensures worst <= DcaTail(values, quantile).value <= Sum(values) / |values| as real
  {
    TailBetween(values, MaxInt(1, Truncated(|values| as real * quantile)), worst);
    TailBetween(values, MaxInt(1, Rounded(|values| as real * quantile)), worst);
  }

  lemma TailBetween(values: seq<real>, count: int, worst: real)
    requires count >= 1 && worst in values && forall x | x in values :: worst <= x
    ensures worst <= MeanOfSmallest(values, count) <= Sum(values) / |values| as real
  {
    TailOfOne(values, worst);
    LongerTailIsMilder(values, 1, count);
    var longest := MaxInt(count, |values|);
    TailOfAll(values, longest);
    LongerTailIsMilder(values, count, longest);
  }
}
