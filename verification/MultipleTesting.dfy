/** Multiple-testing protection (research/multiple_testing.py). */
module MultipleTesting {
  import opened Prelude

  /** `bonferroni`: the corrected threshold of one test among `tests`. */
  function Bonferroni(alpha: real, tests: int): real { alpha / MaxInt(tests, 1) as real }

  datatype Discovery = Discovery(tests: nat, threshold: Option<real>, rejected: nat)

  function Present(pValues: seq<Option<real>>): seq<real> {
    if pValues == [] then []
    else if pValues[0].Some? then [pValues[0].value] + Present(pValues[1..])
    else Present(pValues[1..])
  }

  /** The level of rank i among m p-values. */
  function Level(alpha: real, i: nat, m: nat): real
    requires m > 0
  {
    alpha * i as real / m as real
  }

  /** The step-up test at rank i of the sorted p-values. */
  predicate Passes(ordered: seq<real>, alpha: real, i: nat) {
    0 < i <= |ordered| && ordered[i - 1] <= Level(alpha, i, |ordered|)
  }

  /** k is the largest passing rank among the first n; zero when none passes. */
  ghost predicate LargestPassing(ordered: seq<real>, alpha: real, n: nat, k: nat) {
    && k <= n <= |ordered|
    && (k == 0 || Passes(ordered, alpha, k))
    && forall i: nat | k < i <= n :: !Passes(ordered, alpha, i)
  }

  function CountAtMost(values: seq<real>, bar: real): nat {
    if values == [] then 0 else (if values[0] <= bar then 1 else 0) + CountAtMost(values[1..], bar)
  }

  lemma NextRank(ordered: seq<real>, alpha: real, index: nat, k: nat)
    requires 0 < index <= |ordered| && LargestPassing(ordered, alpha, index - 1, k)
    ensures LargestPassing(ordered, alpha, index, if Passes(ordered, alpha, index) then index else k)
  {
  }

  lemma SameLength(values: seq<real>)
    ensures |SortBy(values, Itself)| == |values|
  {
    SortByOrders(values, Itself);
  }

  /** `benjamini_hochberg`. */
  method BenjaminiHochberg(pValues: seq<Option<real>>, alpha: real) returns (result: Discovery, ghost k: nat)
    ensures result.tests == |Present(pValues)|
    ensures IsStepUp(Present(pValues), alpha, result, k)
  {
    var values := Present(pValues);
    SameLength(values);
    if values == [] { return Discovery(0, None, 0), 0; }
    var ordered := SortBy(values, Itself);
    var threshold;
    threshold, k := Threshold(ordered, alpha);
    var rejected := if threshold.Some? then CountAtMost(ordered, threshold.value) else 0;
    return Discovery(|ordered|, threshold, rejected), k;
  }

  /** The loop of `benjamini_hochberg`. */
  method Threshold(ordered: seq<real>, alpha: real) returns (threshold: Option<real>, ghost k: nat)
    ensures LargestPassing(ordered, alpha, |ordered|, k)
    ensures threshold == if k == 0 then None else Some(ordered[k - 1])
  {
    threshold, k := None, 0;
    for i := 0 to |ordered|
      invariant LargestPassing(ordered, alpha, i, k)
      invariant threshold == if k == 0 then None else Some(ordered[k - 1])
    {
      NextRank(ordered, alpha, i + 1, k);
      if ordered[i] <= Level(alpha, i + 1, |ordered|) { threshold, k := Some(ordered[i]), i + 1; }
    }
  }

  // --------------------------------------------------------- exactly k rejections

  ghost predicate Sorted(s: seq<real>) { forall i, j | 0 <= i < j < |s| :: s[i] <= s[j] }

  lemma SortedValues(values: seq<real>)
    ensures Sorted(SortBy(values, Itself)) && |SortBy(values, Itself)| == |values|
    ensures forall x :: x in SortBy(values, Itself) <==> x in values
  {
    SortByOrders(values, Itself);
    SameMembers(SortBy(values, Itself), values);
    var s := SortBy(values, Itself);
    forall i, j | 0 <= i < j < |s| ensures s[i] <= s[j] {
      assert Itself(s[i]) <= Itself(s[j]);
    }
  }

  /** In sorted values, the ones at most `bar` are the first k when `bar` separates ranks k and k + 1. */
  lemma {:induction false} CountOfCut(s: seq<real>, bar: real, k: nat)
    requires k <= |s|
    requires forall i | 0 <= i < k :: s[i] <= bar
    requires forall i | k <= i < |s| :: bar < s[i]
    ensures CountAtMost(s, bar) == k
  {
    if s != [] {
      if k == 0 {
        assert bar < s[0];
        CountOfCut(s[1..], bar, 0);
      } else {
        CountOfCut(s[1..], bar, k - 1);
      }
    }
  }

  lemma LaterRankIsEasier(alpha: real, i: nat, j: nat, m: nat)
    requires alpha >= 0.0 && 0 < i <= j && m > 0
    ensures Level(alpha, i, m) <= Level(alpha, j, m)
  {
    LargerShare(alpha, i as real, j as real, m as real);
  }

  lemma LargerShare(alpha: real, i: real, j: real, m: real)
    requires alpha >= 0.0 && i <= j && m > 0.0
    ensures alpha * i / m <= alpha * j / m
  {
    FactorOrder(alpha, i, j);
    var x, y := alpha * i, alpha * j;
    FactorSign(m, y - x);
    assert m * (y - x) == y * m - x * m;
    MeansCompare(x, m, y, m);
  }

  lemma FirstLevelIsBonferroni(alpha: real, m: nat)
    requires m > 0
    ensures Level(alpha, 1, m) == Bonferroni(alpha, m)
  {
    assert alpha * 1.0 == alpha;
  }

  lemma NegativeShare(alpha: real, i: real, m: real)
    requires alpha < 0.0 && i > 0.0 && m > 0.0
    ensures alpha * i / m < 0.0
  {
    FactorSign(i, alpha);
    assert i * alpha == alpha * i;
    DivisionCompare(alpha * i, m, 0.0);
  }

  /** A negative level: no p-value that is not negative passes. */
  lemma NegativeLevel(alpha: real, i: nat, m: nat)
    requires alpha < 0.0 && 0 < i && m > 0
    ensures Level(alpha, i, m) < 0.0
  {
    NegativeShare(alpha, i as real, m as real);
  }

  /** Beyond the largest passing rank lies a value equal to the one at that rank. */
  predicate TiedBeyond(ordered: seq<real>, k: nat) { 0 < k < |ordered| && ordered[k] == ordered[k - 1] }

  lemma TieIsCounted(ordered: seq<real>, k: nat)
    requires Sorted(ordered) && TiedBeyond(ordered, k)
    ensures CountAtMost(ordered, ordered[k - 1]) > k
  {
    CountAtLeast(ordered, ordered[k - 1], k + 1);
  }

  lemma {:induction false} CountAtLeast(s: seq<real>, bar: real, n: nat)
    requires n <= |s| && forall i | 0 <= i < n :: s[i] <= bar
    ensures CountAtMost(s, bar) >= n
  {
    if n > 0 { CountAtLeast(s[1..], bar, n - 1); }
  }

  /**
   * As many values lie at or below the threshold as the largest passing rank says, exactly when no
   * value beyond that rank ties with it; for a level that is not negative none ever does, because it
   * would pass too.
   */
  lemma RejectsExactlyTheLargestRank(ordered: seq<real>, alpha: real, k: nat)
    requires Sorted(ordered) && LargestPassing(ordered, alpha, |ordered|, k) && k > 0
    ensures CountAtMost(ordered, ordered[k - 1]) == k <==> !TiedBeyond(ordered, k)
    ensures alpha >= 0.0 ==> !TiedBeyond(ordered, k)
  {
    var bar := ordered[k - 1];
    if TiedBeyond(ordered, k) {
      TieIsCounted(ordered, k);
      if alpha >= 0.0 { BeyondTheRank(ordered, alpha, k, k); }
    } else {
      forall j | k <= j < |ordered| ensures bar < ordered[j] {
        assert ordered[k - 1] <= ordered[k] <= ordered[j];
      }
      CountOfCut(ordered, bar, k);
    }
  }

  lemma BeyondTheRank(ordered: seq<real>, alpha: real, k: nat, j: nat)
    requires alpha >= 0.0 && LargestPassing(ordered, alpha, |ordered|, k) && 0 < k <= j < |ordered|
    ensures ordered[k - 1] < ordered[j]
  {
    LaterRankIsEasier(alpha, k, j + 1, |ordered|);
    assert Passes(ordered, alpha, k) && !Passes(ordered, alpha, j + 1);
  }

  /** A value that passes the step-up test at a rank it holds. */
  ghost predicate PassesSomewhere(ordered: seq<real>, alpha: real, p: real) {
    exists i: nat :: Passes(ordered, alpha, i) && ordered[i - 1] == p
  }

  /** p is at or below the step-up threshold of rank k. */
  predicate WithinRank(ordered: seq<real>, k: nat, p: real)
    requires k <= |ordered|
  {
    k > 0 && p <= ordered[k - 1]
  }

  lemma EarlierRankIsEasier(alpha: real, i: nat, j: nat, m: nat)
    requires alpha < 0.0 && 0 < i <= j && m > 0
    ensures Level(alpha, j, m) <= Level(alpha, i, m)
  {
    LargerShare(-alpha, i as real, j as real, m as real);
    NegatedShare(alpha, i as real, m as real);
    NegatedShare(alpha, j as real, m as real);
  }

  lemma NegatedShare(alpha: real, i: real, m: real)
    requires m > 0.0
    ensures -alpha * i / m == -(alpha * i / m)
  {
    assert -alpha * i == -(alpha * i);
    FractionsAdd(alpha * i, -(alpha * i), m);
  }

  lemma PassingIsWithin(ordered: seq<real>, alpha: real, k: nat, p: real)
    requires Sorted(ordered) && LargestPassing(ordered, alpha, |ordered|, k) && PassesSomewhere(ordered, alpha, p)
    ensures WithinRank(ordered, k, p)
  {
    var i: nat :| Passes(ordered, alpha, i) && ordered[i - 1] == p;
    assert i <= k;
  }

  /** Under a negative level whatever comes before a passing rank passes too. */
  lemma WithinPasses(ordered: seq<real>, alpha: real, k: nat, p: real)
    requires alpha < 0.0 && Sorted(ordered) && LargestPassing(ordered, alpha, |ordered|, k)
    requires p in ordered && WithinRank(ordered, k, p)
    ensures PassesSomewhere(ordered, alpha, p)
  {
    var r :| 0 <= r < |ordered| && ordered[r] == p;
    var i: nat := if r < k then r + 1 else k;
    assert ordered[i - 1] == p by { if r >= k { assert ordered[k - 1] <= ordered[r]; } }
    EarlierRankIsEasier(alpha, i, k, |ordered|);
    assert Passes(ordered, alpha, k) && ordered[i - 1] <= ordered[k - 1];
    assert Passes(ordered, alpha, i);
  }

  lemma ClearingPasses(ordered: seq<real>, alpha: real, p: real)
    requires alpha >= 0.0 && p in ordered && p <= Bonferroni(alpha, |ordered|)
    ensures PassesSomewhere(ordered, alpha, p)
  {
    var r :| 0 <= r < |ordered| && ordered[r] == p;
    FirstLevelIsBonferroni(alpha, |ordered|);
    LaterRankIsEasier(alpha, 1, r + 1, |ordered|);
    assert Passes(ordered, alpha, r + 1);
  }

  /**
   * A value that clears the Bonferroni bar is at or below the step-up threshold exactly when it passes
   * at a rank it holds; for a level that is not negative it always does.
   */
  lemma BonferroniWithinStepUp(ordered: seq<real>, alpha: real, k: nat, p: real)
    requires Sorted(ordered) && p in ordered
    requires LargestPassing(ordered, alpha, |ordered|, k)
    requires p <= Bonferroni(alpha, |ordered|)
    ensures WithinRank(ordered, k, p) <==> PassesSomewhere(ordered, alpha, p)
    ensures alpha >= 0.0 ==> PassesSomewhere(ordered, alpha, p)
  {
    if alpha >= 0.0 { ClearingPasses(ordered, alpha, p); }
    if PassesSomewhere(ordered, alpha, p) {
      PassingIsWithin(ordered, alpha, k, p);
    } else if WithinRank(ordered, k, p) {
      WithinPasses(ordered, alpha, k, p);
    }
  }

  lemma MoreTestsHigherBar(alpha: real, tests: nat, more: nat)
    requires alpha >= 0.0 && tests <= more
    ensures Bonferroni(alpha, more) <= Bonferroni(alpha, tests)
  {
    var a, b := MaxInt(tests, 1) as real, MaxInt(more, 1) as real;
    FactorOrder(alpha, a, b);
    MeansCompare(alpha, b, alpha, a);
  }

  // ------------------------------------------------------------------- the ledger

  datatype Hypothesis = Hypothesis(experimentId: string, name: string, pValue: Option<real>, significant: bool)

  datatype SelectionMethod = PreRegistered | BestOfN | Sequential | Exploratory

  datatype Warning = RepeatedTests | BestOfNInflates | HoldoutReused(times: nat) | NothingSurvives

  datatype LedgerReport = LedgerReport(
    experimentCount: nat,
    hypothesesTested: nat,
    selection: SelectionMethod,
    alpha: real,
    adjustedAlpha: real,
    holdoutUsage: nat,
    survivors: seq<string>,
    falseDiscovery: Discovery,
    warnings: seq<Warning>)

  /** The hypotheses with a p-value at or below the bar. */
  function Clearing(hypotheses: seq<Hypothesis>, bar: real): seq<Hypothesis> {
    if hypotheses == [] then []
    else
      var first, rest := hypotheses[0], Clearing(hypotheses[1..], bar);
      if first.pValue.Some? && first.pValue.value <= bar then [first] + rest else rest
  }

  lemma {:induction false} ClearingMembers(hypotheses: seq<Hypothesis>, bar: real, h: Hypothesis)
    ensures h in Clearing(hypotheses, bar) <==> h in hypotheses && h.pValue.Some? && h.pValue.value <= bar
  {
    if hypotheses != [] {
      ClearingMembers(hypotheses[1..], bar, h);
      assert hypotheses == [hypotheses[0]] + hypotheses[1..];
    }
  }

  function Names(hypotheses: seq<Hypothesis>): seq<string> {
    if hypotheses == [] then [] else [hypotheses[0].name] + Names(hypotheses[1..])
  }

  function PValues(hypotheses: seq<Hypothesis>): seq<Option<real>> {
    if hypotheses == [] then [] else [hypotheses[0].pValue] + PValues(hypotheses[1..])
  }

  lemma {:induction false} PValuePresent(hypotheses: seq<Hypothesis>, h: Hypothesis)
    requires h in hypotheses && h.pValue.Some?
    ensures h.pValue.value in Present(PValues(hypotheses))
  {
    assert (PValues([hypotheses[0]] + hypotheses[1..]))[1..] == PValues(hypotheses[1..]);
    assert hypotheses == [hypotheses[0]] + hypotheses[1..];
    if h != hypotheses[0] { PValuePresent(hypotheses[1..], h); }
  }

  lemma {:induction false} FewerPValues(hypotheses: seq<Hypothesis>)
    ensures |Present(PValues(hypotheses))| <= |hypotheses|
  {
    if hypotheses != [] {
      FewerPValues(hypotheses[1..]);
      assert PValues(hypotheses)[1..] == PValues(hypotheses[1..]);
    }
  }

  /** The experiment ids in order of first appearance. */
  function DistinctIds(hypotheses: seq<Hypothesis>): seq<string> {
    if hypotheses == [] then []
    else
      var last := |hypotheses| - 1;
      var before, id := DistinctIds(hypotheses[..last]), hypotheses[last].experimentId;
      if id in before then before else before + [id]
  }

  ghost predicate IdSeen(hypotheses: seq<Hypothesis>, id: string) {
    exists h | h in hypotheses :: h.experimentId == id
  }

  /** Some configuration was tested more than once. */
  ghost predicate Repeats(hypotheses: seq<Hypothesis>) {
    hypotheses != [] &&
    var last := |hypotheses| - 1;
    Repeats(hypotheses[..last]) || IdSeen(hypotheses[..last], hypotheses[last].experimentId)
  }

  lemma {:induction false} IdsAreSeen(hypotheses: seq<Hypothesis>, id: string)
    ensures id in DistinctIds(hypotheses) <==> IdSeen(hypotheses, id)
  {
    if hypotheses != [] {
      var last := |hypotheses| - 1;
      IdsAreSeen(hypotheses[..last], id);
      assert hypotheses == hypotheses[..last] + [hypotheses[last]];
    }
  }

  lemma {:induction false} RepeatedIffFewerIds(hypotheses: seq<Hypothesis>)
    ensures |DistinctIds(hypotheses)| <= |hypotheses|
    ensures |DistinctIds(hypotheses)| < |hypotheses| <==> Repeats(hypotheses)
  {
    if hypotheses != [] {
      var last := |hypotheses| - 1;
      RepeatedIffFewerIds(hypotheses[..last]);
      IdsAreSeen(hypotheses[..last], hypotheses[last].experimentId);
    }
  }

  /** The warnings of a report: each one is raised exactly when its cause is there. */
  function Warnings(repeated: bool, bestOfN: bool, holdoutUsage: nat, nothingSurvives: bool): (warnings: seq<Warning>)
    ensures RepeatedTests in warnings <==> repeated
    ensures BestOfNInflates in warnings <==> bestOfN
    ensures forall times :: HoldoutReused(times) in warnings <==> times == holdoutUsage && times > 1
    ensures NothingSurvives in warnings <==> nothingSurvives
  {
    (if repeated then [RepeatedTests] else [])
    + (if bestOfN then [BestOfNInflates] else [])
    + (if holdoutUsage > 1 then [HoldoutReused(holdoutUsage)] else [])
    + (if nothingSurvives then [NothingSurvives] else [])
  }

  /** The state of the ledger as a value. */
  datatype Ledger = Ledger(hypotheses: seq<Hypothesis>, experiments: seq<string>, holdoutUsage: nat,
                           selection: SelectionMethod)

  function Survivors(hypotheses: seq<Hypothesis>, alpha: real): seq<Hypothesis> {
    Clearing(hypotheses, Bonferroni(alpha, |hypotheses|))
  }

  class ExperimentLedger {
    const alpha: real
    var selectionMethod: SelectionMethod
    var hypotheses: seq<Hypothesis>
    var experiments: seq<string>
    var holdoutUsage: nat

    constructor (alpha: real, selectionMethod: SelectionMethod)
      ensures this.alpha == alpha && Contents() == Ledger([], [], 0, selectionMethod)
    {
      this.alpha := alpha;
      this.selectionMethod := selectionMethod;
      hypotheses, experiments, holdoutUsage := [], [], 0;
    }

    ghost function Contents(): Ledger
      reads this
    {
      Ledger(hypotheses, experiments, holdoutUsage, selectionMethod)
    }

    /** The recorded experiments are the distinct ids of the recorded hypotheses. */
    ghost predicate Valid()
      reads this
    {
      experiments == DistinctIds(hypotheses)
    }

    method Record(experimentId: string, name: string, pValue: Option<real>, significant: Option<bool>)
      returns (hypothesis: Hypothesis)
      requires Valid()
      modifies this`hypotheses, this`experiments
      ensures Valid()
      ensures hypothesis == Hypothesis(experimentId, name, pValue, significant.GetOr(false))
      ensures hypotheses == old(hypotheses) + [hypothesis]
    {
      if experimentId !in experiments { experiments := experiments + [experimentId]; }
      hypothesis := Hypothesis(experimentId, name, pValue, significant.GetOr(false));
      hypotheses := hypotheses + [hypothesis];
      assert hypotheses[..|hypotheses| - 1] == old(hypotheses);
    }

    method RecordHoldoutUse() returns (usage: nat)
      modifies this`holdoutUsage
      ensures usage == holdoutUsage == old(holdoutUsage) + 1
    {
      holdoutUsage := holdoutUsage + 1;
      usage := holdoutUsage;
    }

    method Select(chosen: SelectionMethod)
      modifies this`selectionMethod
      ensures selectionMethod == chosen
    {
      selectionMethod := chosen;
    }

    /** `report`: k is the rank the false-discovery result rests on. */
    method Report() returns (report: LedgerReport, ghost k: nat)
      requires Valid()
      ensures report.experimentCount == |DistinctIds(hypotheses)| && report.hypothesesTested == |hypotheses|
      ensures report.selection == selectionMethod && report.alpha == alpha && report.holdoutUsage == holdoutUsage
      ensures report.adjustedAlpha == Bonferroni(alpha, |hypotheses|)
      ensures report.survivors == Names(Survivors(hypotheses, alpha))
      ensures report.falseDiscovery.tests == |Present(PValues(hypotheses))|
      ensures IsStepUp(Present(PValues(hypotheses)), alpha, report.falseDiscovery, k)
      ensures ConsistentReport(hypotheses, alpha, report.falseDiscovery, k) <==> Agreeing(hypotheses, alpha, k)
      ensures Comparable(Present(PValues(hypotheses)), alpha) ==> Agreeing(hypotheses, alpha, k)
      ensures report.warnings == Warnings(
        Repeats(hypotheses), selectionMethod == BestOfN, holdoutUsage,
        Clearing(hypotheses, alpha) != [] && Survivors(hypotheses, alpha) == [])
    {
      var naive := Clearing(hypotheses, alpha);
      var survivors := Survivors(hypotheses, alpha);
      RepeatedIffFewerIds(hypotheses);
      var warnings := Warnings(|hypotheses| > |experiments|, selectionMethod == BestOfN, holdoutUsage,
                               naive != [] && survivors == []);
      var discovery;
      discovery, k := BenjaminiHochberg(PValues(hypotheses), alpha);
      SurvivorsAreDiscoveries(hypotheses, alpha, discovery, k);
      report := LedgerReport(
        |experiments|, |hypotheses|, selectionMethod, alpha, Bonferroni(alpha, |hypotheses|), holdoutUsage,
        Names(survivors), discovery, warnings);
    }
  }

  predicate Discovered(h: Hypothesis, discovery: Discovery) {
    h.pValue.Some? && discovery.threshold.Some? && h.pValue.value <= discovery.threshold.value
  }

  function CountDiscovered(values: seq<real>, discovery: Discovery): nat {
    if discovery.threshold.Some? then CountAtMost(values, discovery.threshold.value) else 0
  }

  ghost predicate IsStepUp(values: seq<real>, alpha: real, discovery: Discovery, k: nat) {
    var ordered := SortBy(values, Itself);
    && LargestPassing(ordered, alpha, |ordered|, k)
    && discovery.threshold == (if k == 0 then None else Some(ordered[k - 1]))
    && discovery.rejected == if k == 0 then 0 else CountAtMost(ordered, ordered[k - 1])
  }

  lemma {:induction false} CountInserted(x: real, s: seq<real>, bar: real)
    ensures CountAtMost(Insert(x, s, Itself), bar) == CountAtMost(s, bar) + if x <= bar then 1 else 0
  {
    if s == [] || x <= s[0] {
      assert ([x] + s)[1..] == s;
    } else {
      assert ([s[0]] + Insert(x, s[1..], Itself))[1..] == Insert(x, s[1..], Itself);
      CountInserted(x, s[1..], bar);
    }
  }

  lemma {:induction false} CountSorted(values: seq<real>, bar: real)
    ensures CountAtMost(SortBy(values, Itself), bar) == CountAtMost(values, bar)
  {
    if values != [] {
      CountSorted(values[1..], bar);
      CountInserted(values[0], SortBy(values[1..], Itself), bar);
    }
  }

  /** The level is not negative, or no p-value is. */
  ghost predicate Comparable(values: seq<real>, alpha: real) {
    alpha >= 0.0 || forall i | 0 <= i < |values| :: values[i] >= 0.0
  }

  /** The two corrections agree: k hypotheses are discovered, and every Bonferroni survivor is one of them. */
  ghost predicate ConsistentReport(hypotheses: seq<Hypothesis>, alpha: real, discovery: Discovery, k: nat) {
    && discovery.rejected == k == CountDiscovered(Present(PValues(hypotheses)), discovery)
    && forall h | h in Survivors(hypotheses, alpha) :: Discovered(h, discovery)
  }

  function Ranked(hypotheses: seq<Hypothesis>): seq<real> { SortBy(Present(PValues(hypotheses)), Itself) }

  /** The p-value of a survivor passes the step-up test at a rank it holds. */
  ghost predicate SurvivorPasses(hypotheses: seq<Hypothesis>, alpha: real, h: Hypothesis) {
    h.pValue.Some? && PassesSomewhere(Ranked(hypotheses), alpha, h.pValue.value)
  }

  /** Nothing ties with the threshold beyond its rank, and every survivor passes on its own. */
  ghost predicate Agreeing(hypotheses: seq<Hypothesis>, alpha: real, k: nat) {
    && !TiedBeyond(Ranked(hypotheses), k)
    && forall h | h in Survivors(hypotheses, alpha) :: SurvivorPasses(hypotheses, alpha, h)
  }

  /**
   * The report discovers exactly as many as the largest passing rank says, every Bonferroni survivor
   * among them, exactly when nothing ties beyond that rank and every survivor passes the step-up test on
   * its own. A level or p-values that are not negative are enough for that.
   */
  lemma SurvivorsAreDiscoveries(hypotheses: seq<Hypothesis>, alpha: real, discovery: Discovery, k: nat)
    requires IsStepUp(Present(PValues(hypotheses)), alpha, discovery, k)
    ensures ConsistentReport(hypotheses, alpha, discovery, k) <==> Agreeing(hypotheses, alpha, k)
    ensures Comparable(Present(PValues(hypotheses)), alpha) ==> Agreeing(hypotheses, alpha, k)
  {
    DiscoveriesCount(Present(PValues(hypotheses)), alpha, discovery, k);
    forall h | h in Survivors(hypotheses, alpha)
      ensures Discovered(h, discovery) <==> SurvivorPasses(hypotheses, alpha, h)
      ensures alpha >= 0.0 ==> SurvivorPasses(hypotheses, alpha, h)
    {
      SurvivorIsDiscovered(hypotheses, alpha, discovery, k, h);
    }
    if alpha < 0.0 && Comparable(Present(PValues(hypotheses)), alpha) { NothingPasses(hypotheses, alpha, k); }
  }

  lemma DiscoveriesCount(values: seq<real>, alpha: real, discovery: Discovery, k: nat)
    requires IsStepUp(values, alpha, discovery, k)
    ensures discovery.rejected == CountDiscovered(values, discovery)
    ensures discovery.rejected == k <==> !TiedBeyond(SortBy(values, Itself), k)
    ensures alpha >= 0.0 ==> !TiedBeyond(SortBy(values, Itself), k)
  {
    var ordered := SortBy(values, Itself);
    if k > 0 {
      SortedValues(values);
      RejectsExactlyTheLargestRank(ordered, alpha, k);
      CountSorted(values, ordered[k - 1]);
    }
  }

  lemma SurvivorIsDiscovered(hypotheses: seq<Hypothesis>, alpha: real, discovery: Discovery, k: nat, h: Hypothesis)
    requires IsStepUp(Present(PValues(hypotheses)), alpha, discovery, k)
    requires h in Survivors(hypotheses, alpha)
    ensures Discovered(h, discovery) <==> SurvivorPasses(hypotheses, alpha, h)
    ensures alpha >= 0.0 ==> SurvivorPasses(hypotheses, alpha, h)
  {
    var ordered := Ranked(hypotheses);
    SortedValues(Present(PValues(hypotheses)));
    ClearingMembers(hypotheses, Bonferroni(alpha, |hypotheses|), h);
    PValuePresent(hypotheses, h);
    var p := h.pValue.value;
    if alpha >= 0.0 {
      FewerPValues(hypotheses);
      MoreTestsHigherBar(alpha, |ordered|, |hypotheses|);
      ClearingPasses(ordered, alpha, p);
    }
    if PassesSomewhere(ordered, alpha, p) {
      PassingIsWithin(ordered, alpha, k, p);
    } else if WithinRank(ordered, k, p) {
      WithinPasses(ordered, alpha, k, p);
    }
    assert Discovered(h, discovery) <==> WithinRank(ordered, k, p);
  }

  lemma PassingIsNegative(ordered: seq<real>, alpha: real, i: nat)
    requires alpha < 0.0 && Passes(ordered, alpha, i)
    ensures ordered[i - 1] < 0.0
  {
    NegativeLevel(alpha, i, |ordered|);
  }

  lemma NotNegative(values: seq<real>, alpha: real, p: real)
    requires alpha < 0.0 && Comparable(values, alpha) && p in values
    ensures p >= 0.0
  {
    var i :| 0 <= i < |values| && values[i] == p;
  }

  lemma NoneClears(hypotheses: seq<Hypothesis>, alpha: real, bar: real)
    requires alpha < 0.0 && bar < 0.0 && Comparable(Present(PValues(hypotheses)), alpha)
    ensures Clearing(hypotheses, bar) == []
  {
    if Clearing(hypotheses, bar) != [] {
      var h := Clearing(hypotheses, bar)[0];
      ClearingMembers(hypotheses, bar, h);
      PValuePresent(hypotheses, h);
      NotNegative(Present(PValues(hypotheses)), alpha, h.pValue.value);
    }
  }

  lemma NoneReject(values: seq<real>, alpha: real, k: nat)
    requires alpha < 0.0 && Comparable(values, alpha)
    requires LargestPassing(SortBy(values, Itself), alpha, |SortBy(values, Itself)|, k)
    ensures k == 0
  {
    var ordered := SortBy(values, Itself);
    SortedValues(values);
    if k > 0 {
      PassingIsNegative(ordered, alpha, k);
      NotNegative(values, alpha, ordered[k - 1]);
    }
  }

  lemma NothingPasses(hypotheses: seq<Hypothesis>, alpha: real, k: nat)
    requires alpha < 0.0 && Comparable(Present(PValues(hypotheses)), alpha)
    requires LargestPassing(Ranked(hypotheses), alpha, |Ranked(hypotheses)|, k)
    ensures k == 0 && Survivors(hypotheses, alpha) == []
  {
    NoneReject(Present(PValues(hypotheses)), alpha, k);
    DivisionCompare(alpha, MaxInt(|hypotheses|, 1) as real, 0.0);
    NoneClears(hypotheses, alpha, Bonferroni(alpha, |hypotheses|));
  }

  lemma TwoValues(a: Hypothesis, b: Hypothesis, p: real, q: real)
    requires a.pValue == Some(p) && b.pValue == Some(q)
    ensures Present(PValues([a, b])) == [p, q]
  {
    assert [a, b][1..] == [b] && [b][1..] == [];
    assert PValues([b]) == [b.pValue];
    assert PValues([a, b]) == [a.pValue] + [b.pValue];
    assert PValues([a, b])[1..] == [b.pValue] && [b.pValue][1..] == [];
    assert Present([b.pValue]) == [q];
  }

  lemma TwoSorted(p: real, q: real)
    requires p <= q
    ensures SortBy([p, q], Itself) == [p, q]
  {
    assert [p, q][1..] == [q] && [q][1..] == [];
    assert SortBy([q], Itself) == [q];
  }

  /** At level -1 two values of -0.5 tie: only the first rank passes, and both are rejected. */
  lemma TieIsRejectedToo(k: nat)
    requires LargestPassing([-0.5, -0.5], -1.0, 2, k)
    ensures k == 1 && CountAtMost([-0.5, -0.5], -0.5) == 2
  {
    var ordered: seq<real> := [-0.5, -0.5];
    assert Passes(ordered, -1.0, 1) && !Passes(ordered, -1.0, 2);
    assert ordered[1..] == [-0.5];
    assert CountAtMost(ordered[1..], -0.5) == 1 by { assert ordered[1..][1..] == []; }
  }

  /** At level -1 the values -0.6 and -0.55 both survive, and the second one is no discovery. */
  lemma SurvivorIsMissed(a: Hypothesis, b: Hypothesis, discovery: Discovery, k: nat)
    requires a.pValue == Some(-0.6) && b.pValue == Some(-0.55)
    requires IsStepUp(Present(PValues([a, b])), -1.0, discovery, k)
    ensures b in Survivors([a, b], -1.0) && !Discovered(b, discovery)
  {
    TwoValues(a, b, -0.6, -0.55);
    TwoSorted(-0.6, -0.55);
    ClearingMembers([a, b], Bonferroni(-1.0, 2), b);
    assert !Passes([-0.6, -0.55], -1.0, 2);
  }

  lemma NegativeQuotient(alpha: real, p: real) returns (ratio: real)
    requires alpha < 0.0 && p < 0.0
    ensures ratio > 0.0 && alpha == ratio * p
  {
    ratio := alpha / p;
    FactorSign(-p, ratio);
    assert alpha == ratio * p && -p * ratio == -alpha;
  }

  lemma CrossedBar(alpha: real, p: real, ratio: real, tests: real)
    requires p < 0.0 && alpha == ratio * p && ratio <= tests && tests > 0.0
    ensures p <= alpha / tests
  {
    FactorOrder(-p, ratio, tests);
    assert -p * ratio == -(ratio * p) && -p * tests == -(p * tests);
    DivisionCompare(alpha, tests, p);
  }

  /** Enough further tests bring a negative bar above any negative p-value. */
  lemma BarRisesAbove(alpha: real, p: real) returns (n: nat)
    requires alpha < 0.0 && p < 0.0
    ensures forall tests: nat | tests >= n :: p <= Bonferroni(alpha, tests)
  {
    var ratio := NegativeQuotient(alpha, p);
    n := ratio.Floor + 1;
    forall tests: nat | tests >= n ensures p <= Bonferroni(alpha, tests) {
      CrossedBar(alpha, p, ratio, MaxInt(tests, 1) as real);
    }
  }

  /** A hypothesis that some further recording can revive: it misses a negative bar with a negative p-value. */
  predicate Revivable(hypotheses: seq<Hypothesis>, alpha: real, h: Hypothesis) {
    alpha < 0.0 && h.pValue.Some? && Bonferroni(alpha, |hypotheses|) < h.pValue.value < 0.0
  }

  /** Recording more hypotheses never revives one that did not survive, unless level and p-value are both negative. */
  lemma NeverRevivedIff(hypotheses: seq<Hypothesis>, alpha: real, h: Hypothesis)
    requires h in hypotheses
    ensures (forall more :: h in Survivors(hypotheses + more, alpha) ==> h in Survivors(hypotheses, alpha))
      <==> !Revivable(hypotheses, alpha, h)
  {
    if Revivable(hypotheses, alpha, h) {
      var n := BarRisesAbove(alpha, h.pValue.value);
      var more := seq(n, i => h);
      ClearingMembers(hypotheses + more, Bonferroni(alpha, |hypotheses + more|), h);
      ClearingMembers(hypotheses, Bonferroni(alpha, |hypotheses|), h);
      assert h in Survivors(hypotheses + more, alpha) && h !in Survivors(hypotheses, alpha);
    } else {
      forall more | h in Survivors(hypotheses + more, alpha) ensures h in Survivors(hypotheses, alpha) {
        NotRevived(hypotheses, more, alpha, h);
      }
    }
  }

  /** At level -1 a value of -0.5 misses the bar alone and clears it with one more test. */
  lemma RevivedByOneMore(h: Hypothesis, other: Hypothesis)
    requires h.pValue == Some(-0.5)
    ensures h !in Survivors([h], -1.0) && h in Survivors([h, other], -1.0)
  {
    ClearingMembers([h], Bonferroni(-1.0, 1), h);
    ClearingMembers([h, other], Bonferroni(-1.0, 2), h);
  }

  lemma NotRevived(hypotheses: seq<Hypothesis>, more: seq<Hypothesis>, alpha: real, h: Hypothesis)
    requires h in hypotheses && h in Survivors(hypotheses + more, alpha) && !Revivable(hypotheses, alpha, h)
    ensures h in Survivors(hypotheses, alpha)
  {
    ClearingMembers(hypotheses + more, Bonferroni(alpha, |hypotheses + more|), h);
    ClearingMembers(hypotheses, Bonferroni(alpha, |hypotheses|), h);
    if alpha >= 0.0 {
      MoreTestsHigherBar(alpha, |hypotheses|, |hypotheses + more|);
    } else {
      DivisionCompare(alpha, MaxInt(|hypotheses + more|, 1) as real, 0.0);
    }
  }
}
