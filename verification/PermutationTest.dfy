// The stratified permutation test: how the decoder's information compares with that of labels shuffled
// within their strata.
module PermutationTest {
  import opened Counting
  import opened Xorshift
  import opened FisherYates
  import opened Strata
  import opened Sorting
  import MI = MutualInformation

  // The spacing of double-precision numbers at one.
  const EPSILON: real := 1.0 / 4503599627370496.0

  const CLIENT_ITERATIONS: nat := 2000

  function Paired(e: seq<nat>, pairs: seq<Scored>): (r: seq<MI.Pair>)
    requires |e| == |pairs|
    ensures |r| == |e| && forall i :: 0 <= i < |e| ==> r[i] == MI.Pair(e[i], pairs[i].decoded)
  {
    seq(|e|, i requires 0 <= i < |e| => MI.Pair(e[i], pairs[i].decoded))
  }

  function Observed(lg: real -> real, pairs: seq<Scored>): real {
    MI.Information(lg, Paired(Expected(pairs), pairs))
  }

  // The information of round n, counted from one.
  function Estimate(lg: real -> real, pairs: seq<Scored>, n: nat, start: bv64): real {
    MI.Information(lg, Paired(Permuted(pairs, n, start).0, pairs))
  }

  function Estimates(lg: real -> real, pairs: seq<Scored>, n: nat, start: bv64): (r: seq<real>)
    ensures |r| == n
  {
    if n == 0 then [] else Estimates(lg, pairs, n - 1, start) + [Estimate(lg, pairs, n, start)]
  }

  function AtLeast(observed: real): real -> bool { x => x >= observed - EPSILON }

  function PValue(atLeast: nat, n: nat): real {
    (atLeast + 1) as real / (n + 1) as real
  }

  function TestedP(lg: real -> real, pairs: seq<Scored>, start: bv64, n: nat): real {
    if pairs == [] || n == 0 then 1.0
    else PValue(Tally(AtLeast(Observed(lg, pairs)), Estimates(lg, pairs, n, start)), n)
  }

  function TestedMean(lg: real -> real, pairs: seq<Scored>, start: bv64, n: nat): real {
    if pairs == [] || n == 0 then 0.0 else Sum(Estimates(lg, pairs, n, start)) / n as real
  }

  // The rank of a quantile among n sorted values: rounded to the nearest index, ties up.
  function Rank(n: nat, quantile: real): nat
    requires n > 0 && 0.0 <= quantile <= 1.0
    ensures Rank(n, quantile) < n
    ensures (n - 1) as real * quantile - 0.5 < Rank(n, quantile) as real <= (n - 1) as real * quantile + 0.5
  {
    var x := (n - 1) as real * quantile;
    RankBounds(n, quantile, x);
    (x + 0.5).Floor
  }

  lemma RankBounds(n: nat, quantile: real, x: real)
    requires n > 0 && 0.0 <= quantile <= 1.0 && x == (n - 1) as real * quantile
    ensures 0 <= (x + 0.5).Floor < n
  {
    var top := (n - 1) as real;
    NonNegativeProduct(top, quantile);
    NonNegativeProduct(top, 1.0 - quantile);
    assert top * (1.0 - quantile) == top - top * quantile;
  }

  lemma NonNegativeProduct(a: real, b: real)
    requires a >= 0.0 && b >= 0.0
    ensures a * b >= 0.0
  {
  }

  function NoGreater(): (real, real) -> bool { (x, y) => x <= y }

  function Percentile(sorted: seq<real>, quantile: real): real
    requires 0.0 <= quantile <= 1.0
  {
    if sorted == [] then 0.0 else sorted[Rank(|sorted|, quantile)]
  }

  function TestedP95(lg: real -> real, pairs: seq<Scored>, start: bv64, n: nat): real {
    if pairs == [] || n == 0 then 0.0
    else Percentile(SortBy(NoGreater(), Estimates(lg, pairs, n, start)), 0.95)
  }

  method FindGroups(pairs: seq<Scored>) returns (groups: seq<seq<nat>>)
    ensures groups == Groups(pairs, Offsets(pairs))
  {
    var offsets := [];
    for i := 0 to |pairs|
      invariant offsets == OffsetList(pairs)[..i]
    {
      offsets := offsets + [pairs[i].offset];
    }
    assert OffsetList(pairs)[..|pairs|] == OffsetList(pairs);
    offsets := SortUnstable(UpTo(), offsets);
    SortedOffsets(pairs, offsets);
    offsets := MergeEqualNeighbours(offsets);
    groups := [];
    for j := 0 to |offsets|
      invariant groups == Groups(pairs, offsets[..j])
    {
      assert offsets[..j + 1][..j] == offsets[..j];
      var group := FindGroup(pairs, offsets[j]);
      groups := groups + [group];
    }
    assert offsets[..|offsets|] == offsets;
  }

  // `dedup`.
  method MergeEqualNeighbours(s: seq<nat>) returns (r: seq<nat>)
    ensures r == Dedup(s)
  {
    r := [];
    for i := 0 to |s|
      invariant r == Dedup(s[..i])
    {
      assert s[..i + 1][..i] == s[..i];
      if i == 0 || s[i - 1] != s[i] {
        r := r + [s[i]];
      }
    }
    assert s[..|s|] == s;
  }

  method FindGroup(pairs: seq<Scored>, o: nat) returns (group: seq<nat>)
    ensures group == Group(pairs, o)
  {
    group := [];
    for i := 0 to |pairs|
      invariant group == Group(pairs[..i], o)
    {
      assert pairs[..i + 1][..i] == pairs[..i];
      if pairs[i].offset == o {
        group := group + [i];
      }
    }
    assert pairs[..|pairs|] == pairs;
  }

  method PermutationTest(lg: real -> real, pairs: seq<Scored>, seed: bv64, iterations: nat)
    returns (pValue: real, nullMean: real, nullP95: real)
    ensures pValue == TestedP(lg, pairs, Start(seed, PERMUTATION_SALT), iterations)
    ensures nullMean == TestedMean(lg, pairs, Start(seed, PERMUTATION_SALT), iterations)
    ensures nullP95 == TestedP95(lg, pairs, Start(seed, PERMUTATION_SALT), iterations)
  {
    hide Next, Pick, Start, MI.Information, PValue, Rank, TotalOrder, SortedBy;
    if pairs == [] || iterations == 0 {
      return 1.0, 0.0, 0.0;
    }
    var observed := MI.MutualInformation(lg, Paired(Expected(pairs), pairs));
    var groups := FindGroups(pairs);
    StrataAreStrata(pairs);
    var g := new Generator(seed, PERMUTATION_SALT);
    ghost var start := g.state;
    var expected := new nat[|pairs|](i requires 0 <= i < |pairs| => pairs[i].expected);
    assert expected[..] == Expected(pairs);
    var atLeast := 0;
    var estimates := [];
    for n := 0 to iterations
      invariant (expected[..], g.state) == Permuted(pairs, n, start)
      invariant estimates == Estimates(lg, pairs, n, start)
      invariant atLeast == Tally(AtLeast(observed), estimates)
    {
      ShuffleGroups(expected, groups, g);
      var estimate := MI.MutualInformation(lg, Paired(expected[..], pairs));
      if estimate >= observed - EPSILON {
        atLeast := atLeast + 1;
      }
      assert (estimates + [estimate])[..n] == estimates;
      estimates := estimates + [estimate];
    }
    var total := SumOf(estimates);
    NoGreaterIsTotal();
    var sorted := SortUnstable(NoGreater(), estimates);
    SortIsSorted(NoGreater(), estimates);
    SortedIsUnique(NoGreater(), sorted, SortBy(NoGreater(), estimates));
    pValue := PValue(atLeast, iterations);
    nullMean := total / iterations as real;
    nullP95 := Percentile(sorted, 0.95);
  }

  lemma NoGreaterIsTotal()
    ensures TotalOrder(NoGreater())
  {
  }

  method SumOf(xs: seq<real>) returns (sum: real)
    ensures sum == Sum(xs)
  {
    sum := 0.0;
    for i := 0 to |xs|
      invariant sum == Sum(xs[..i])
    {
      assert xs[..i + 1][..i] == xs[..i];
      sum := sum + xs[i];
    }
    assert xs[..|xs|] == xs;
  }

  // ---------- the margins of the table ----------

  function HasLabel(a: nat): ((nat, nat)) -> bool { (l: (nat, nat)) => l.0 == a }

  function DecodedAs(b: nat): Scored -> bool { (p: Scored) => p.decoded == b }

  ghost predicate BinaryDecoded(pairs: seq<Scored>) {
    forall i :: 0 <= i < |pairs| ==> pairs[i].decoded <= 1
  }

  ghost predicate BinaryLabels(e: seq<nat>) {
    forall i :: 0 <= i < |e| ==> e[i] <= 1
  }

  lemma {:induction false} RowIsCount(e: seq<nat>, pairs: seq<Scored>, a: MI.bit)
    requires |e| == |pairs| && BinaryDecoded(pairs)
    ensures MI.TableOf(Paired(e, pairs)).Row(a) == Tally(HasLabel(a), Labels(e, pairs)) as real
  {
    if e != [] {
      var last := |e| - 1;
      RowIsCount(e[..last], pairs[..last], a);
      assert Paired(e, pairs)[..last] == Paired(e[..last], pairs[..last]);
      assert Labels(e, pairs)[..last] == Labels(e[..last], pairs[..last]);
    }
  }

  lemma {:induction false} ColIsCount(e: seq<nat>, pairs: seq<Scored>, b: MI.bit)
    requires |e| == |pairs| && BinaryLabels(e)
    ensures MI.TableOf(Paired(e, pairs)).Col(b) == Tally(DecodedAs(b), pairs) as real
  {
    if e != [] {
      var last := |e| - 1;
      ColIsCount(e[..last], pairs[..last], b);
      assert Paired(e, pairs)[..last] == Paired(e[..last], pairs[..last]);
    }
  }

  lemma LabelsStayBinary(pairs: seq<Scored>, n: nat, start: bv64)
    requires BinaryLabels(Expected(pairs))
    ensures BinaryLabels(Permuted(pairs, n, start).0)
  {
    hide Permuted;
    var e := Permuted(pairs, n, start).0;
    RoundsStayInStrata(pairs, n, start);
    forall i | 0 <= i < |e|
      ensures e[i] <= 1
    {
      assert Labels(e, pairs)[i] in multiset(Labels(Expected(pairs), pairs));
      var j :| 0 <= j < |pairs| && Labels(Expected(pairs), pairs)[j] == (e[i], pairs[i].offset);
    }
  }

  // The shuffles move counts within the table but keep all four of its margins.
  lemma TableMarginsAreFixed(pairs: seq<Scored>, n: nat, start: bv64, a: MI.bit)
    requires BinaryDecoded(pairs) && BinaryLabels(Expected(pairs))
    ensures var t := MI.TableOf(Paired(Permuted(pairs, n, start).0, pairs));
            var u := MI.TableOf(Paired(Expected(pairs), pairs));
            t.Row(a) == u.Row(a) && t.Col(a) == u.Col(a)
  {
    hide Permuted, MI.TableOf;
    var e := Permuted(pairs, n, start).0;
    RowIsCount(e, pairs, a);
    RowIsCount(Expected(pairs), pairs, a);
    MarginsAreFixed(pairs, n, start, HasLabel(a));
    LabelsStayBinary(pairs, n, start);
    ColIsCount(e, pairs, a);
    ColIsCount(Expected(pairs), pairs, a);
  }

  // ---------- p stays between 1 / (n + 1) and 1 ----------

  lemma {:induction false} TallyAtMost<T>(f: T -> bool, xs: seq<T>)
    ensures Tally(f, xs) <= |xs|
  {
    if xs != [] {
      TallyAtMost(f, xs[..|xs| - 1]);
    }
  }

  lemma QuotientBounds(a: nat, m: nat)
    requires 1 <= a <= m
    ensures 1.0 / m as real <= a as real / m as real <= 1.0
    ensures a == m ==> a as real / m as real == 1.0
  {
    QuotientIsMonotone(1.0, a as real, m as real);
    QuotientIsMonotone(a as real, m as real, m as real);
    CancelFactor(Times(m, 1.0), m, 1.0);
  }

  lemma QuotientIsMonotone(x: real, y: real, z: real)
    requires x <= y && z > 0.0
    ensures x / z <= y / z
  {
    var d := x / z - y / z;
    assert d * z == x - y;
    assert d > 0.0 ==> d * z > 0.0;
  }

  lemma PIsBounded(lg: real -> real, pairs: seq<Scored>, start: bv64, n: nat)
    ensures 1.0 / (n + 1) as real <= TestedP(lg, pairs, start, n) <= 1.0
  {
    hide Observed;
    TallyAtMost(AtLeast(Observed(lg, pairs)), Estimates(lg, pairs, n, start));
    QuotientBounds(1, n + 1);
    QuotientBounds(Tally(AtLeast(Observed(lg, pairs)), Estimates(lg, pairs, n, start)) + 1, n + 1);
  }

  function NotAbove(bound: real): real -> bool { x => x <= bound }

  function NotBelow(bound: real): real -> bool { x => x >= bound }

  // The reported percentile splits the estimates at its rank.
  lemma P95Splits(lg: real -> real, pairs: seq<Scored>, start: bv64, n: nat)
    requires pairs != [] && n > 0
    ensures var (estimates, p95) := (Estimates(lg, pairs, n, start), TestedP95(lg, pairs, start, n));
            && p95 in estimates
            && Tally(NotAbove(p95), estimates) > Rank(n, 0.95)
            && Tally(NotBelow(p95), estimates) >= n - Rank(n, 0.95)
  {
    hide Estimates, Rank;
    var estimates := Estimates(lg, pairs, n, start);
    var sorted := SortBy(NoGreater(), estimates);
    NoGreaterIsTotal();
    SortIsSorted(NoGreater(), estimates);
    assert |sorted| == |multiset(sorted)| == |multiset(estimates)| == n;
    SplitAt(sorted, estimates, Rank(n, 0.95));
  }

  lemma SplitAt(sorted: seq<real>, xs: seq<real>, k: nat)
    requires SortedBy(NoGreater(), sorted) && multiset(sorted) == multiset(xs) && k < |sorted|
    ensures sorted[k] in xs
    ensures Tally(NotAbove(sorted[k]), xs) > k
    ensures Tally(NotBelow(sorted[k]), xs) >= |sorted| - k
  {
    var v := sorted[k];
    assert v in multiset(sorted);
    forall i | 0 <= i < |sorted|
      ensures i <= k ==> NotAbove(v)(sorted[i])
      ensures i >= k ==> NotBelow(v)(sorted[i])
    {
      assert i < k ==> NoGreater()(sorted[i], v);
      assert k < i ==> NoGreater()(v, sorted[i]);
    }
    TallyBounds(NotAbove(v), sorted, 0, k + 1);
    TallyBounds(NotBelow(v), sorted, k, |sorted|);
    TallyOfPermutation(NotAbove(v), sorted, xs);
    TallyOfPermutation(NotBelow(v), sorted, xs);
  }

  // The rounds whose information reaches the observed one, up to the spacing of doubles.
  function Reaching(lg: real -> real, pairs: seq<Scored>, start: bv64, n: nat): set<nat> {
    set k: nat | 1 <= k <= n && Estimate(lg, pairs, k, start) >= Observed(lg, pairs) - 1.0 / 4503599627370496.0
  }

  lemma {:induction false} TallyIsReaching(lg: real -> real, pairs: seq<Scored>, start: bv64, n: nat)
    ensures Tally(AtLeast(Observed(lg, pairs)), Estimates(lg, pairs, n, start)) == |Reaching(lg, pairs, start, n)|
  {
    hide Estimate, Observed, Reaching;
    ReachingGrows(lg, pairs, start, n);
    if n > 0 {
      TallyIsReaching(lg, pairs, start, n - 1);
      var estimates := Estimates(lg, pairs, n, start);
      assert estimates[..n - 1] == Estimates(lg, pairs, n - 1, start);
    }
  }

  lemma ReachingGrows(lg: real -> real, pairs: seq<Scored>, start: bv64, n: nat)
    ensures |Reaching(lg, pairs, start, n)| ==
            if n == 0 then 0
            else |Reaching(lg, pairs, start, n - 1)|
                 + if AtLeast(Observed(lg, pairs))(Estimate(lg, pairs, n, start)) then 1 else 0
  {
    hide Estimate, Observed;
    if n == 0 {
      assert Reaching(lg, pairs, start, 0) == {};
    } else {
      var before := Reaching(lg, pairs, start, n - 1);
      assert n !in before;
      assert Reaching(lg, pairs, start, n) ==
             if AtLeast(Observed(lg, pairs))(Estimate(lg, pairs, n, start)) then before + {n} else before;
    }
  }

  // The p value counts the upper tail: the rounds that reach the observed information, and the observation
  // itself.
  lemma PCountsReaching(lg: real -> real, pairs: seq<Scored>, start: bv64, n: nat)
    requires pairs != [] && n > 0
    ensures TestedP(lg, pairs, start, n) == (1 + |Reaching(lg, pairs, start, n)|) as real / (n + 1) as real
  {
    hide Estimate, Observed;
    TallyIsReaching(lg, pairs, start, n);
  }

  // An observation that no round reaches is as significant as n rounds can make it.
  lemma UnreachedIsExtreme(lg: real -> real, pairs: seq<Scored>, start: bv64, n: nat)
    requires pairs != [] && n > 0
    requires forall k :: 1 <= k <= n ==> Estimate(lg, pairs, k, start) < Observed(lg, pairs) - 1.0 / 4503599627370496.0
    ensures TestedP(lg, pairs, start, n) == 1.0 / (n + 1) as real
  {
    hide Estimate, Observed;
    PCountsReaching(lg, pairs, start, n);
    assert Reaching(lg, pairs, start, n) == {};
  }

  // The null mean is the average of the rounds, and what the report subtracts, but never below zero.
  lemma NullMeanIsAverage(lg: real -> real, pairs: seq<Scored>, start: bv64, n: nat)
    requires pairs != []
    ensures TestedMean(lg, pairs, start, 1) == Estimate(lg, pairs, 1, start)
    ensures TestedMean(lg, pairs, start, n + 1) * (n + 1) as real
         == TestedMean(lg, pairs, start, n) * n as real + Estimate(lg, pairs, n + 1, start)
    ensures Observed(lg, pairs) <= TestedMean(lg, pairs, start, n) ==> CorrectedInformation(lg, pairs, start, n) == 0.0
    ensures Observed(lg, pairs) > TestedMean(lg, pairs, start, n) ==>
              CorrectedInformation(lg, pairs, start, n) + TestedMean(lg, pairs, start, n) == Observed(lg, pairs)
  {
    hide Estimate, Observed;
    var before, after := Estimates(lg, pairs, n, start), Estimates(lg, pairs, n + 1, start);
    assert after[..n] == before;
    assert Estimates(lg, pairs, 1, start)[..0] == Estimates(lg, pairs, 0, start);
    assert Sum(Estimates(lg, pairs, 1, start)) == Estimate(lg, pairs, 1, start);
    MeanTimes(lg, pairs, start, 1);
    MeanTimes(lg, pairs, start, n);
    MeanTimes(lg, pairs, start, n + 1);
  }

  lemma MeanTimes(lg: real -> real, pairs: seq<Scored>, start: bv64, n: nat)
    requires pairs != []
    ensures TestedMean(lg, pairs, start, n) * n as real == Sum(Estimates(lg, pairs, n, start))
  {
    hide Estimate;
  }

  // The report calls a leak detected when p <= 0.05: when fewer than one hundred of the 2000 shuffles
  // reach the observed information.
  lemma DetectionThreshold(lg: real -> real, pairs: seq<Scored>, start: bv64)
    requires pairs != []
    ensures TestedP(lg, pairs, start, CLIENT_ITERATIONS) <= 0.05 <==>
            |Reaching(lg, pairs, start, CLIENT_ITERATIONS)| < 100
  {
    hide Reaching, TestedP;
    PCountsReaching(lg, pairs, start, CLIENT_ITERATIONS);
    var k := |Reaching(lg, pairs, start, CLIENT_ITERATIONS)|;
    assert (k + 1) as real / 2001.0 <= 0.05 <==> (k + 1) as real <= 100.05;
  }

  // ---------- degenerate strata ----------

  ghost predicate ConstantExpected(pairs: seq<Scored>, o: nat) {
    forall i, j :: 0 <= i < |pairs| && 0 <= j < |pairs| && pairs[i].offset == o == pairs[j].offset ==>
      pairs[i].expected == pairs[j].expected
  }

  ghost predicate ConstantDecoded(pairs: seq<Scored>, o: nat) {
    forall i, j :: 0 <= i < |pairs| && 0 <= j < |pairs| && pairs[i].offset == o == pairs[j].offset ==>
      pairs[i].decoded == pairs[j].decoded
  }

  ghost predicate Degenerate(pairs: seq<Scored>) {
    forall i :: 0 <= i < |pairs| ==>
      ConstantExpected(pairs, pairs[i].offset) || ConstantDecoded(pairs, pairs[i].offset)
  }

  // What swaps keep when every stratum is constant in one variable.
  ghost predicate SamePairs(e: seq<nat>, pairs: seq<Scored>) {
    && |e| == |pairs|
    && multiset(Paired(e, pairs)) == multiset(Paired(Expected(pairs), pairs))
    && forall i :: 0 <= i < |pairs| && ConstantExpected(pairs, pairs[i].offset) ==> e[i] == pairs[i].expected
  }

  lemma DegenerateSwap(e: seq<nat>, pairs: seq<Scored>, i: nat, j: nat)
    requires Degenerate(pairs) && SamePairs(e, pairs)
    requires i < |e| && j < |e| && pairs[i].offset == pairs[j].offset
    ensures SamePairs(Swap(e, i, j), pairs)
  {
    if ConstantExpected(pairs, pairs[i].offset) {
      assert e[i] == e[j];
      assert Swap(e, i, j) == e;
    } else {
      assert ConstantDecoded(pairs, pairs[i].offset);
      assert pairs[i].decoded == pairs[j].decoded;
      assert Paired(Swap(e, i, j), pairs) == Swap(Paired(e, pairs), i, j);
      SwapPermutes(Paired(e, pairs), i, j);
    }
  }

  lemma RoundsChangeNothing(pairs: seq<Scored>, n: nat, start: bv64)
    requires Degenerate(pairs)
    ensures multiset(Paired(Permuted(pairs, n, start).0, pairs)) == multiset(Paired(Expected(pairs), pairs))
  {
    hide Next, Pick;
    var inv := (e: seq<nat>) => SamePairs(e, pairs);
    forall e: seq<nat>, i: nat, j: nat |
      |e| == |pairs| && inv(e) && i < |e| && j < |e| && pairs[i].offset == pairs[j].offset
      ensures inv(Swap(e, i, j))
    {
      DegenerateSwap(e, pairs, i, j);
    }
    StrataAreStrata(pairs);
    RoundsKeep(inv, pairs, Expected(pairs), Groups(pairs, Offsets(pairs)), n, start);
  }

  lemma DegenerateEstimate(lg: real -> real, pairs: seq<Scored>, n: nat, start: bv64)
    requires Degenerate(pairs)
    ensures Estimate(lg, pairs, n, start) == Observed(lg, pairs)
  {
    hide Next, Pick, MI.Information;
    RoundsChangeNothing(pairs, n, start);
    MI.ReorderingKeepsInformation(lg, Paired(Permuted(pairs, n, start).0, pairs), Paired(Expected(pairs), pairs));
  }

  lemma {:induction false} DegenerateEstimates(lg: real -> real, pairs: seq<Scored>, n: nat, start: bv64)
    requires Degenerate(pairs)
    ensures Tally(AtLeast(Observed(lg, pairs)), Estimates(lg, pairs, n, start)) == n
    ensures Sum(Estimates(lg, pairs, n, start)) == Times(n, Observed(lg, pairs))
    ensures forall i :: 0 <= i < n ==> Estimates(lg, pairs, n, start)[i] == Observed(lg, pairs)
  {
    hide Next, Pick, Observed, Estimate, Times;
    OneMore(n, Observed(lg, pairs));
    if n > 0 {
      DegenerateEstimates(lg, pairs, n - 1, start);
      DegenerateEstimate(lg, pairs, n, start);
      var front := Estimates(lg, pairs, n - 1, start);
      assert Estimates(lg, pairs, n, start)[..n - 1] == front;
    }
  }

  ghost function Times(n: nat, x: real): real { n as real * x }

  lemma OneMore(n: nat, x: real)
    ensures Times(n, x) == if n == 0 then 0.0 else Times(n - 1, x) + x
  {
    if n > 0 {
      assert n as real == (n - 1) as real + 1.0;
    }
  }

  function CorrectedInformation(lg: real -> real, pairs: seq<Scored>, start: bv64, n: nat): real {
    MI.AtLeastZero(Observed(lg, pairs) - TestedMean(lg, pairs, start, n))
  }

  // If each stratum is constant in expected or in decoded bits, the test sees no signal: p is one, null
  // mean and percentile are the observed information, and nothing is left after correction.
  lemma DegenerateStrataGiveNoSignal(lg: real -> real, pairs: seq<Scored>, start: bv64, n: nat)
    requires Degenerate(pairs) && n > 0
    ensures TestedP(lg, pairs, start, n) == 1.0
    ensures TestedMean(lg, pairs, start, n) == Observed(lg, pairs)
    ensures pairs != [] ==> TestedP95(lg, pairs, start, n) == Observed(lg, pairs)
    ensures CorrectedInformation(lg, pairs, start, n) == 0.0
  {
    hide Observed, Estimates, Times, Rank;
    if pairs != [] {
      P95Splits(lg, pairs, start, n);
    }
    DegenerateEstimates(lg, pairs, n, start);
    CancelFactor(Sum(Estimates(lg, pairs, n, start)), n, Observed(lg, pairs));
    QuotientBounds(n + 1, n + 1);
    NothingObserved(lg, pairs);
  }

  lemma CancelFactor(total: real, n: nat, x: real)
    requires n > 0 && total == Times(n, x)
    ensures total / n as real == x
  {
    var q := total / n as real;
    assert q * n as real == total;
    assert (q - x) * n as real == 0.0;
  }

  lemma NothingObserved(lg: real -> real, pairs: seq<Scored>)
    ensures pairs == [] ==> Observed(lg, pairs) == 0.0
  {
  }
}
