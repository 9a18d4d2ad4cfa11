// The balanced random design of both benchmarks: a shuffled calibration block followed by shuffled
// copies of all (offset, bit) combinations, the last one cut to length.
module TrialDesign {
  import opened Counting
  import opened Division

  datatype Trial = Trial(bit: nat, offset: nat)

  // All combinations, bit 0 before bit 1, in the order of the offsets.
  function Combinations(offsets: seq<nat>): (r: seq<Trial>)
    ensures |r| == 2 * |offsets|
  {
    if offsets == [] then []
    else
      var o := offsets[|offsets| - 1];
      Combinations(offsets[..|offsets| - 1]) + Pair(o)
  }

  function Mentions(offsets: seq<nat>, o: nat): nat { Count(offsets, o) }

  // A combination occurs as often as its offset was given.
  lemma {:induction false} CombinationCount(offsets: seq<nat>, x: Trial)
    ensures Count(Combinations(offsets), x) == Given(offsets, x)
  {
    if offsets != [] {
      var front, o := offsets[..|offsets| - 1], offsets[|offsets| - 1];
      CombinationCount(front, x);
      CountConcat(Combinations(front), Pair(o), x);
      PairCount(o, x);
    }
  }

  lemma PairCount(o: nat, x: Trial)
    ensures Count(Pair(o), x) == if x.bit <= 1 && x.offset == o then 1 else 0
  {
    CountConcat([Trial(0, o)], [Trial(1, o)], x);
    assert Pair(o) == [Trial(0, o)] + [Trial(1, o)];
    assert Count([Trial(0, o)], x) == if Trial(0, o) == x then 1 else 0;
    assert Count([Trial(1, o)], x) == if Trial(1, o) == x then 1 else 0;
  }

  // s is made of whole rearrangements of the block and a tail that could begin another one.
  ghost predicate Blocked(s: seq<Trial>, block: seq<Trial>)
    decreases |s|
  {
    if block == [] then s == []
    else if |s| < |block| then multiset(s) <= multiset(block)
    else multiset(s[..|block|]) == multiset(block) && Blocked(s[|block|..], block)
  }

  // Such a sequence grows by a rearrangement of the block, or by part of one, at a block boundary.
  lemma {:induction false} BlockedExtend(s: seq<Trial>, t: seq<Trial>, block: seq<Trial>, n: nat)
    requires block != [] && Blocked(s, block) && |s| % |block| == 0
    requires multiset(t) == multiset(block) && n <= |block| == |t|
    ensures Blocked(s + t[..n], block)
    ensures (|s| + |t|) % |block| == 0
    decreases |s|
  {
    NextCycle(|s|, |block|);
    if |s| < |block| {
      RemainderUnique(|s|, |block|, 0, |s|);
      assert s + t[..n] == t[..n];
      BlockedStart(t, block, n);
    } else {
      NextCycle(|s| - |block|, |block|);
      BlockedExtend(s[|block|..], t, block, n);
      assert (s + t[..n])[..|block|] == s[..|block|];
      assert (s + t[..n])[|block|..] == s[|block|..] + t[..n];
    }
  }

  lemma BlockedStart(t: seq<Trial>, block: seq<Trial>, n: nat)
    requires block != [] && multiset(t) == multiset(block) && n <= |block| == |t|
    ensures Blocked(t[..n], block)
  {
    assert t == t[..n] + t[n..];
    if n == |block| {
      assert t[..n][..n] == t && t[..n][n..] == [];
    }
  }

  // How many whole blocks of k lie within n, and how many blocks n begins.
  function Floor(n: nat, k: nat): nat
    requires k > 0
  {
    if n < k then 0 else Floor(n - k, k) + 1
  }

  function Ceiling(n: nat, k: nat): nat
    requires k > 0
  {
    if n == 0 then 0 else if n < k then 1 else Ceiling(n - k, k) + 1
  }

  lemma {:induction false} FloorAndCeiling(n: nat, k: nat)
    requires k > 0
    ensures Floor(n, k) == n / k && Ceiling(n, k) == (n + k - 1) / k
    ensures Floor(n, k) <= Ceiling(n, k) <= Floor(n, k) + 1
  {
    if n == 0 {
      QuotientUnique(n, k, 0, n);
      QuotientUnique(n + k - 1, k, 0, k - 1);
    } else if n < k {
      QuotientUnique(n, k, 0, n);
      QuotientUnique(n + k - 1, k, 1, n - 1);
    } else {
      FloorAndCeiling(n - k, k);
      QuotientStep(n, k);
      QuotientStep(n + k - 1, k);
    }
  }

  // Every prefix of length n holds every combination floor(n / |block|) or ceil(n / |block|) times
  // (times its multiplicity in the block).
  lemma {:induction false} PrefixBalance(s: seq<Trial>, block: seq<Trial>, n: nat, x: Trial)
    requires block != [] && Blocked(s, block) && n <= |s|
    ensures Floor(n, |block|) * Count(block, x) <= Count(s[..n], x) <= Ceiling(n, |block|) * Count(block, x)
    decreases |s|
  {
    var k := |block|;
    if n < k {
      PartialBlock(s, block, n, x);
    } else {
      PrefixBalance(s[k..], block, n - k, x);
      CountsAgree(s[..k], block, x);
      PrefixSplit(s, k, n, x);
      OneBlockMore(n, k, Count(block, x), Count(s[k..][..n - k], x));
    }
  }

  lemma PrefixSplit(s: seq<Trial>, k: nat, n: nat, x: Trial)
    requires k <= n <= |s|
    ensures Count(s[..n], x) == Count(s[..k], x) + Count(s[k..][..n - k], x)
  {
    assert s[..n] == s[..k] + s[k..][..n - k];
    CountConcat(s[..k], s[k..][..n - k], x);
  }

  lemma OneBlockMore(n: nat, k: nat, m: nat, rest: nat)
    requires 0 < k <= n && Floor(n - k, k) * m <= rest <= Ceiling(n - k, k) * m
    ensures Floor(n, k) * m <= m + rest <= Ceiling(n, k) * m
  {
    RowAbove(Floor(n, k), m);
    RowAbove(Ceiling(n, k), m);
  }

  lemma PartialBlock(s: seq<Trial>, block: seq<Trial>, n: nat, x: Trial)
    requires block != [] && Blocked(s, block) && n <= |s| && n < |block|
    ensures Count(s[..n], x) <= Count(block, x)
    ensures n == 0 ==> Count(s[..n], x) == 0
  {
    var whole := if |s| < |block| then s else s[..|block|];
    assert whole == s[..n] + whole[n..];
    CountConcat(s[..n], whole[n..], x);
    CountsAgree(whole, block, x);
  }

  // ---------- the plan as a function of its inputs ----------

  function Copies(s: seq<Trial>, c: nat): seq<Trial> {
    if c == 0 then [] else Copies(s, c - 1) + s
  }

  // c trials of each bit at each offset, in order.
  function Calibration(offsets: seq<nat>, c: nat): seq<Trial> {
    if offsets == [] then []
    else
      var o := offsets[|offsets| - 1];
      Calibration(offsets[..|offsets| - 1], c) + Copies(Pair(o), c)
  }

  function Pair(o: nat): seq<Trial> { [Trial(0, o), Trial(1, o)] }

  // The order before shuffling: bit 0 and bit 1 in turn, offset by offset.
  lemma {:induction false} CombinationAt(offsets: seq<nat>, j: nat, bit: nat)
    requires j < |offsets| && bit <= 1
    ensures Combinations(offsets)[2 * j + bit] == Trial(bit, offsets[j])
  {
    if j < |offsets| - 1 {
      CombinationAt(offsets[..|offsets| - 1], j, bit);
    }
  }

  lemma {:induction false} CopyAt(o: nat, c: nat, k: nat, bit: nat)
    requires k < c && bit <= 1
    ensures |Copies(Pair(o), c)| == 2 * c && Copies(Pair(o), c)[2 * k + bit] == Trial(bit, o)
  {
    CopiesLength(Pair(o), c);
    CopiesLength(Pair(o), c - 1);
    if k < c - 1 {
      CopyAt(o, c - 1, k, bit);
    }
  }

  lemma {:induction false} CalibrationAt(offsets: seq<nat>, c: nat, j: nat, k: nat, bit: nat)
    requires j < |offsets| && k < c && bit <= 1
    ensures var i := j * (2 * c) + 2 * k + bit;
            0 <= i < |Calibration(offsets, c)| && Calibration(offsets, c)[i] == Trial(bit, offsets[j])
  {
    var last := |offsets| - 1;
    CalibrationLength(offsets[..last], c);
    CopyAt(offsets[last], c, k, bit);
    if j < last {
      CalibrationAt(offsets[..last], c, j, k, bit);
    }
  }

  lemma {:induction false} CopiesLength(s: seq<Trial>, c: nat)
    ensures |Copies(s, c)| == |s| * c
  {
    if c > 0 {
      CopiesLength(s, c - 1);
      RowAbove(c, |s|);
    }
  }

  lemma {:induction false} CalibrationLength(offsets: seq<nat>, c: nat)
    ensures |Calibration(offsets, c)| == |offsets| * (2 * c)
  {
    if offsets != [] {
      CalibrationLength(offsets[..|offsets| - 1], c);
      CopiesLength(Pair(offsets[|offsets| - 1]), c);
      RowAbove(|offsets|, 2 * c);
    }
  }

  lemma {:induction false} CopiesCount(s: seq<Trial>, c: nat, x: Trial)
    ensures Count(Copies(s, c), x) == c * Count(s, x)
  {
    if c > 0 {
      CopiesCount(s, c - 1, x);
      CountConcat(Copies(s, c - 1), s, x);
      RowAbove(c, Count(s, x));
    }
  }

  lemma {:induction false} CalibrationCount(offsets: seq<nat>, c: nat, x: Trial)
    ensures Count(Calibration(offsets, c), x) == c * Count(Combinations(offsets), x)
  {
    if offsets != [] {
      var front, pair := offsets[..|offsets| - 1], Pair(offsets[|offsets| - 1]);
      CalibrationCount(front, c, x);
      AddPair(Calibration(front, c), Combinations(front), pair, c, x);
    }
  }

  lemma AddPair(calibration: seq<Trial>, block: seq<Trial>, pair: seq<Trial>, c: nat, x: Trial)
    requires Count(calibration, x) == c * Count(block, x)
    ensures Count(calibration + Copies(pair, c), x) == c * Count(block + pair, x)
  {
    CopiesCount(pair, c, x);
    CountConcat(calibration, Copies(pair, c), x);
    CountConcat(block, pair, x);
    Distributes(c, Count(block, x), Count(pair, x));
  }

  lemma Distributes(c: nat, a: nat, b: nat)
    ensures c * (a + b) == c * a + c * b
  {
  }

  // ---------- balance ----------

  // A plan that falls into a rearranged calibration part and a blocked scored part.
  ghost predicate Designed(plan: seq<Trial>, offsets: seq<nat>, c: nat) {
    var ordered := Calibration(offsets, c);
    && |ordered| <= |plan|
    && multiset(plan[..|ordered|]) == multiset(ordered)
    && Blocked(plan[|ordered|..], Combinations(offsets))
  }

  // How often a combination is given: once for every mention of its offset.
  function Given(offsets: seq<nat>, x: Trial): nat {
    if x.bit <= 1 then Mentions(offsets, x.offset) else 0
  }

  // The calibration part holds every combination c times, and every prefix of the scored part is
  // balanced to within one, both up to the multiplicity with which the offset was given.
  lemma DesignIsBalanced(plan: seq<Trial>, offsets: seq<nat>, c: nat, n: nat, x: Trial, given: nat)
    requires offsets != [] && Designed(plan, offsets, c) && |Calibration(offsets, c)| + n <= |plan|
    requires given == Given(offsets, x)
    ensures var split := |Calibration(offsets, c)|;
            && Count(plan[..split], x) == c * given
            && Floor(n, 2 * |offsets|) * given <= Count(plan[split..split + n], x) <= Ceiling(n, 2 * |offsets|) * given
  {
    hide Blocked, Calibration, Combinations, Floor, Ceiling, Count, Given;
    var split := |Calibration(offsets, c)|;
    CalibrationCount(offsets, c, x);
    CombinationCount(offsets, x);
    CountsAgree(plan[..split], Calibration(offsets, c), x);
    PrefixBalance(plan[split..], Combinations(offsets), n, x);
    assert plan[split..][..n] == plan[split..split + n];
  }

  // Over a whole plan, the two bits of an offset differ by at most one trial for every time it was given.
  lemma BitsAreBalanced(plan: seq<Trial>, offsets: seq<nat>, c: nat, o: nat)
    requires offsets != [] && Designed(plan, offsets, c)
    ensures var m := Mentions(offsets, o);
            0 - m <= Count(plan, Trial(0, o)) - Count(plan, Trial(1, o)) <= m
  {
    hide Designed, Blocked, Calibration, Combinations, Floor, Ceiling, Count;
    var split, m := |Calibration(offsets, c)|, Mentions(offsets, o);
    PlanHasRoom(plan, offsets, c);
    var n := |plan| - split;
    var low, high := Floor(n, 2 * |offsets|), Ceiling(n, 2 * |offsets|);
    DesignIsBalanced(plan, offsets, c, n, Trial(0, o), m);
    DesignIsBalanced(plan, offsets, c, n, Trial(1, o), m);
    assert plan[split..split + n] == plan[split..];
    CutCount(plan, split, Trial(0, o));
    CutCount(plan, split, Trial(1, o));
    FloorAndCeiling(n, 2 * |offsets|);
    Spread(low, high, m);
  }

  lemma PlanHasRoom(plan: seq<Trial>, offsets: seq<nat>, c: nat)
    requires Designed(plan, offsets, c)
    ensures |Calibration(offsets, c)| <= |plan|
  {
  }

  lemma Spread(low: nat, high: nat, m: nat)
    requires low <= high <= low + 1
    ensures 0 <= high * m - low * m <= m
  {
    assert high == low || high == low + 1;
  }

  lemma CutCount(plan: seq<Trial>, split: nat, x: Trial)
    requires split <= |plan|
    ensures Count(plan, x) == Count(plan[..split], x) + Count(plan[split..], x)
  {
    CountConcat(plan[..split], plan[split..], x);
    assert plan == plan[..split] + plan[split..];
  }

  // ---------- where the analysis splits the plan ----------

  function OffsetsOf(plan: seq<Trial>): set<nat> {
    set i | 0 <= i < |plan| :: plan[i].offset
  }

  lemma {:induction false} CombinationsMention(offsets: seq<nat>)
    ensures forall x :: x in Combinations(offsets) ==> x.offset in offsets
    ensures forall o :: o in offsets ==> Trial(0, o) in Combinations(offsets)
  {
    if offsets != [] {
      CombinationsMention(offsets[..|offsets| - 1]);
    }
  }

  function SetOf(offsets: seq<nat>): set<nat> {
    set o | o in offsets
  }

  lemma {:induction false} DistinctCount(offsets: seq<nat>)
    ensures |SetOf(offsets)| <= |offsets|
    ensures |SetOf(offsets)| == |offsets| <==> Distinct(offsets)
  {
    if offsets != [] {
      var front, last := offsets[..|offsets| - 1], offsets[|offsets| - 1];
      DistinctCount(front);
      assert SetOf(offsets) == SetOf(front) + {last};
      if last in front {
        assert SetOf(offsets) == SetOf(front);
        var i :| 0 <= i < |front| && front[i] == last;
        assert offsets[i] == offsets[|offsets| - 1];
      } else {
        assert last !in SetOf(front);
        DistinctLast(offsets);
      }
    }
  }

  lemma DistinctLast(offsets: seq<nat>)
    requires offsets != [] && offsets[|offsets| - 1] !in offsets[..|offsets| - 1]
    ensures Distinct(offsets) <==> Distinct(offsets[..|offsets| - 1])
  {
    var front := offsets[..|offsets| - 1];
    assert forall i :: 0 <= i < |front| ==> front[i] == offsets[i];
  }

  // Blocks and their beginnings hold nothing that the block does not hold.
  lemma {:induction false} BlockedMembers(s: seq<Trial>, block: seq<Trial>, x: Trial)
    requires Blocked(s, block) && x in s
    ensures x in block
    decreases |s|
  {
    if |s| < |block| {
      assert x in multiset(s);
    } else {
      assert s == s[..|block|] + s[|block|..];
      if x in s[..|block|] {
        assert x in multiset(s[..|block|]);
      } else {
        BlockedMembers(s[|block|..], block, x);
      }
    }
  }

  // The gaps of a whole plan are the given ones: all of them if there is a calibration part.
  lemma PlanOffset(plan: seq<Trial>, offsets: seq<nat>, c: nat, o: nat)
    requires Designed(plan, offsets, c)
    ensures o in OffsetsOf(plan) ==> o in offsets
    ensures c > 0 && o in offsets ==> o in OffsetsOf(plan)
  {
    hide Calibration, Combinations, Blocked;
    var split := |Calibration(offsets, c)|;
    var calibration := plan[..split];
    if c > 0 && o in offsets {
      GivenIsCalibrated(calibration, offsets, c, o);
      var i :| 0 <= i < split && calibration[i].offset == o;
      assert plan[i].offset == o;
    }
    if o in OffsetsOf(plan) {
      var i :| 0 <= i < |plan| && plan[i].offset == o;
      PlannedIsGiven(plan, offsets, c, i);
    }
  }

  lemma PlannedIsGiven(plan: seq<Trial>, offsets: seq<nat>, c: nat, i: nat)
    requires Designed(plan, offsets, c) && i < |plan|
    ensures plan[i].offset in offsets
  {
    hide Calibration, Combinations, Blocked;
    var split := |Calibration(offsets, c)|;
    var calibration, scored := plan[..split], plan[split..];
    if i < split {
      assert plan[i] == calibration[i];
      CalibratedIsGiven(calibration, offsets, c, i);
    } else {
      assert plan[i] == scored[i - split] && plan[i] in scored;
      BlockedMembers(scored, Combinations(offsets), plan[i]);
      CombinationsMention(offsets);
    }
  }

  // The length of the calibration part as the analysis recomputes it, from the different gaps of the
  // whole plan.
  function AnalysedSplit(plan: seq<Trial>, c: nat): nat {
    |OffsetsOf(plan)| * c * 2
  }

  // The plan is built with a calibration part for every given gap; the analysis looks for one for every
  // different gap.  It never looks for more than there is, and for exactly as much if and only if no gap
  // was given twice or there is no calibration at all.
  lemma AnalysisSplit(plan: seq<Trial>, offsets: seq<nat>, c: nat)
    requires Designed(plan, offsets, c)
    ensures AnalysedSplit(plan, c) <= |Calibration(offsets, c)|
    ensures AnalysedSplit(plan, c) == |Calibration(offsets, c)| <==> c == 0 || Distinct(offsets)
  {
    hide Designed, Calibration, Distinct, OffsetsOf, SetOf;
    CalibrationLength(offsets, c);
    DistinctCount(offsets);
    GapsFound(plan, offsets, c);
    var found := |OffsetsOf(plan)|;
    assert found * c * 2 == found * (2 * c);
    if c == 0 {
      assert found * 0 == 0 && |offsets| * 0 == 0;
    } else {
      SameFactor(found, |offsets|, 2 * c);
    }
  }

  lemma GapsFound(plan: seq<Trial>, offsets: seq<nat>, c: nat)
    requires Designed(plan, offsets, c)
    ensures c > 0 ==> OffsetsOf(plan) == SetOf(offsets)
  {
    hide Designed;
    forall o
      ensures o in OffsetsOf(plan) ==> o in offsets
      ensures c > 0 && o in offsets ==> o in OffsetsOf(plan)
    {
      PlanOffset(plan, offsets, c, o);
    }
  }

  // A gap given twice: half of the calibration part is taken for scored trials.
  lemma RepeatedGap(plan: seq<Trial>)
    requires Designed(plan, [0, 0], 10)
    ensures |Calibration([0, 0], 10)| == 40 && AnalysedSplit(plan, 10) == 20
  {
    hide Designed, Calibration, OffsetsOf;
    CalibrationLength([0, 0], 10);
    GapsFound(plan, [0, 0], 10);
    assert SetOf([0, 0]) == {0};
  }

  lemma GivenIsCalibrated(calibration: seq<Trial>, offsets: seq<nat>, c: nat, o: nat)
    requires c > 0 && multiset(calibration) == multiset(Calibration(offsets, c)) && o in offsets
    ensures o in OffsetsOf(calibration)
  {
    CombinationsMention(offsets);
    CalibrationCount(offsets, c, Trial(0, o));
    CountIsMultiplicity(Combinations(offsets), Trial(0, o));
    CountIsMultiplicity(Calibration(offsets, c), Trial(0, o));
    Positive(c, Count(Combinations(offsets), Trial(0, o)));
    assert Trial(0, o) in multiset(calibration);
    var i :| 0 <= i < |calibration| && calibration[i] == Trial(0, o);
    assert calibration[i].offset == o;
  }

  lemma CalibratedIsGiven(calibration: seq<Trial>, offsets: seq<nat>, c: nat, i: nat)
    requires multiset(calibration) == multiset(Calibration(offsets, c)) && i < |calibration|
    ensures calibration[i].offset in offsets
  {
    CombinationsMention(offsets);
    CalibrationCount(offsets, c, calibration[i]);
    CountIsMultiplicity(Combinations(offsets), calibration[i]);
    CountIsMultiplicity(Calibration(offsets, c), calibration[i]);
    assert calibration[i] in multiset(calibration);
    assert c * 0 == 0;
  }

  lemma Positive(c: nat, m: nat)
    requires c > 0 && m > 0
    ensures c * m > 0
  {
  }

  lemma SameFactor(a: nat, b: nat, k: nat)
    requires k > 0
    ensures a * k == b * k <==> a == b
    ensures a <= b ==> a * k <= b * k
  {
    SignOfProduct(a - b, k);
    assert (a - b) * k == a * k - b * k;
  }
}
