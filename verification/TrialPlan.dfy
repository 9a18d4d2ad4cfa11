// Both benchmarks' plan builders, which produce a balanced design from a seed.
module TrialPlan {
  import opened TrialDesign
  import opened Division
  import opened Xorshift
  import opened FisherYates

  const CLIENT_CALIBRATION: nat := 5

  // Shuffled blocks are appended until the target length is reached, the last one cut to fit.
  function Extended(s: seq<Trial>, block: seq<Trial>, target: nat, state: bv64): seq<Trial>
    decreases target - |s|
  {
    if |s| >= target || block == [] then s
    else
      var (t, next) := Shuffled(block, Top(|block|), state);
      Extended(s + t[..Least(|block|, target - |s|)], block, target, next)
  }

  lemma {:induction false} ExtendedIsBlocked(s: seq<Trial>, block: seq<Trial>, target: nat, state: bv64)
    requires block != [] && Blocked(s, block)
    requires |s| < target ==> |s| % |block| == 0
    ensures Blocked(Extended(s, block, target, state), block)
    ensures |Extended(s, block, target, state)| == if |s| < target then target else |s|
    decreases target - |s|
  {
    if |s| < target {
      var (t, next) := Shuffled(block, Top(|block|), state);
      var n := Least(|block|, target - |s|);
      ShufflePermutes(block, state);
      BlockedExtend(s, t, block, n);
      ExtendedIsBlocked(s + t[..n], block, target, next);
    }
  }

  lemma {:induction false} ExtendedBehind(p: seq<Trial>, s: seq<Trial>, block: seq<Trial>, target: nat, state: bv64)
    ensures Extended(p + s, block, |p| + target, state) == p + Extended(s, block, target, state)
    decreases target - |s|
  {
    if |s| < target && block != [] {
      var (t, next) := Shuffled(block, Top(|block|), state);
      var n := Least(|block|, target - |s|);
      assert p + s + t[..n] == p + (s + t[..n]);
      ExtendedBehind(p, s + t[..n], block, target, next);
    }
  }

  // A shuffled calibration block, then the scored trials.
  function PlanOf(start: bv64, count: nat, offsets: seq<nat>, c: nat): seq<Trial> {
    var calibration := Calibration(offsets, c);
    var (shuffled, state) := Shuffled(calibration, Top(|calibration|), start);
    Extended(shuffled, Combinations(offsets), count, state)
  }

  // Extending an already placed part appends a blocked sequence to it.
  lemma ExtendedShape(p: seq<Trial>, block: seq<Trial>, n: nat, state: bv64) returns (scored: seq<Trial>)
    requires block != []
    ensures Extended(p, block, |p| + n, state) == p + scored
    ensures |scored| == n && Blocked(scored, block)
  {
    scored := Extended([], block, n, state);
    RemainderUnique(0, |block|, 0, 0);
    ExtendedIsBlocked([], block, n, state);
    assert p + [] == p;
    ExtendedBehind(p, [], block, n, state);
  }

  lemma JoinedDesign(calibration: seq<Trial>, scored: seq<Trial>, offsets: seq<nat>, c: nat)
    requires |calibration| == |Calibration(offsets, c)|
    requires multiset(calibration) == multiset(Calibration(offsets, c))
    requires Blocked(scored, Combinations(offsets))
    ensures Designed(calibration + scored, offsets, c)
  {
    var plan := calibration + scored;
    assert plan[..|calibration|] == calibration && plan[|calibration|..] == scored;
  }

  // Every plan with room for its calibration part is a balanced design of the requested length.
  lemma PlanIsDesigned(start: bv64, count: nat, offsets: seq<nat>, c: nat)
    requires offsets != [] && |Calibration(offsets, c)| <= count
    ensures |PlanOf(start, count, offsets, c)| == count
    ensures Designed(PlanOf(start, count, offsets, c), offsets, c)
  {
    hide Next, Pick, Designed, Calibration, Combinations;
    var ordered := Calibration(offsets, c);
    var (shuffled, state) := Shuffled(ordered, Top(|ordered|), start);
    ShufflePermutes(ordered, start);
    var scored := ExtendedShape(shuffled, Combinations(offsets), count - |ordered|, state);
    JoinedDesign(shuffled, scored, offsets, c);
  }

  // ---------- every block is shuffled ----------

  function Window(s: seq<Trial>, from: nat, length: nat): seq<Trial>
    requires from + length <= |s|
  {
    s[from..from + length]
  }

  // Block m of the scored trials is the shuffle of the block from the state that the m shuffles before it
  // leave, cut to what is missing.
  lemma {:induction false} ScoredBlock(block: seq<Trial>, n: nat, state: bv64, m: nat)
    requires block != [] && m * |block| < n
    ensures var k, from := |block|, m * |block|;
            var length := Least(k, n - from);
            var scored := Extended([], block, n, state);
            && |scored| == n
            && Window(scored, from, length) == Shuffled(block, Top(k), After(state, m * Top(k))).0[..length]
    decreases m
  {
    hide Next, Pick, After, Shuffled, Extended, Window;
    var k, steps := |block|, Top(|block|);
    var (t, next) := Shuffled(block, steps, state);
    var rest := Extended([], block, n - Least(k, n), next);
    FirstBlock(block, n, state);
    ScoredLength(block, n, state);
    ScoredLength(block, n - Least(k, n), next);
    ShuffleSteps(block, steps, state);
    if m == 0 {
      AfterNothing(state);
      FirstWindow(t[..Least(k, n)], rest);
    } else {
      RowAbove(m, k);
      RowAbove(m, steps);
      NonNegativeProduct(m - 1, k);
      NonNegativeProduct(m - 1, steps);
      ScoredBlock(block, n - k, next, m - 1);
      AfterSum(state, steps, (m - 1) * steps);
      LaterWindow(t[..k], rest, (m - 1) * k, Least(k, n - m * k));
    }
  }

  lemma NonNegativeProduct(a: nat, b: nat)
    ensures a * b >= 0
  {
  }

  lemma ScoredLength(block: seq<Trial>, n: nat, state: bv64)
    requires block != []
    ensures |Extended([], block, n, state)| == n
  {
    RemainderUnique(0, |block|, 0, 0);
    ExtendedIsBlocked([], block, n, state);
  }

  lemma FirstWindow(first: seq<Trial>, rest: seq<Trial>)
    ensures Window(first + rest, 0, |first|) == first
  {
  }

  lemma AfterNothing(state: bv64)
    ensures After(state, 0) == state
  {
  }

  lemma LaterWindow(first: seq<Trial>, rest: seq<Trial>, from: nat, length: nat)
    requires from + length <= |rest|
    ensures Window(first + rest, |first| + from, length) == Window(rest, from, length)
  {
  }

  lemma FirstBlock(block: seq<Trial>, n: nat, state: bv64)
    requires block != [] && n > 0
    ensures var (t, next) := Shuffled(block, Top(|block|), state);
            var length := Least(|block|, n);
            Extended([], block, n, state) == t[..length] + Extended([], block, n - length, next)
  {
    hide Next, Pick;
    var (t, next) := Shuffled(block, Top(|block|), state);
    var first := t[..Least(|block|, n)];
    assert [] + first == first && first + [] == first;
    ExtendedBehind(first, [], block, n - |first|, next);
  }

  // What a plan consists of, in terms of shuffles and generator states alone: the calibration part is the
  // shuffle of the ordered calibration, and block m of the scored part the shuffle of all combinations, from
  // the states that the shuffles before them leave; the last block is cut to length.
  ghost predicate ShuffledThroughout(plan: seq<Trial>, start: bv64, count: nat, offsets: seq<nat>, c: nat)
    requires offsets != []
  {
    var split := |Calibration(offsets, c)|;
    && |plan| == (if count < split then split else count)
    && plan[..split] == Shuffled(Calibration(offsets, c), Top(split), start).0
    && forall m: nat :: IsShuffledBlock(plan, split, Combinations(offsets), After(start, Top(split)), m)
  }

  ghost predicate IsShuffledBlock(plan: seq<Trial>, split: nat, block: seq<Trial>, state: bv64, m: nat)
    requires split <= |plan| && block != []
  {
    var from := split + m * |block|;
    from < |plan| ==>
      var length := Least(|block|, |plan| - from);
      Window(plan, from, length) == Shuffled(block, Top(|block|), After(state, m * Top(|block|))).0[..length]
  }

  lemma PlanIsShuffled(start: bv64, count: nat, offsets: seq<nat>, c: nat)
    requires offsets != []
    ensures ShuffledThroughout(PlanOf(start, count, offsets, c), start, count, offsets, c)
  {
    hide Next, Pick, Calibration, Combinations, IsShuffledBlock, After, Designed;
    var ordered, block := Calibration(offsets, c), Combinations(offsets);
    var (shuffled, state) := Shuffled(ordered, Top(|ordered|), start);
    ShuffleSteps(ordered, Top(|ordered|), start);
    var n := if count < |ordered| then 0 else count - |ordered|;
    var plan := PlanOf(start, count, offsets, c);
    NothingToExtend(shuffled, block, count, state);
    var scored := ExtendedShape(shuffled, block, n, state);
    assert plan == shuffled + Extended([], block, n, state) by {
      assert shuffled + [] == shuffled;
      ExtendedBehind(shuffled, [], block, n, state);
    }
    forall m: nat
      ensures IsShuffledBlock(plan, |ordered|, block, state, m)
    {
      OneBlock(shuffled, block, n, state, m);
    }
  }

  lemma NothingToExtend(s: seq<Trial>, block: seq<Trial>, target: nat, state: bv64)
    ensures |s| >= target ==> Extended(s, block, target, state) == s == Extended(s, block, |s| + 0, state)
  {
  }

  lemma OneBlock(p: seq<Trial>, block: seq<Trial>, n: nat, state: bv64, m: nat)
    requires block != [] && |Extended([], block, n, state)| == n
    ensures IsShuffledBlock(p + Extended([], block, n, state), |p|, block, state, m)
  {
    hide Next, Pick, After, Shuffled, Extended;
    var from := m * |block|;
    if from < n {
      assert from >= 0;
      ScoredBlock(block, n, state, m);
      LaterWindow(p, Extended([], block, n, state), from, Least(|block|, n - from));
    }
  }

  // ---------- building the plan ----------

  method ShuffleSeq(s: seq<Trial>, g: Generator) returns (t: seq<Trial>)
    modifies g
    ensures (t, g.state) == Shuffled(s, Top(|s|), old(g.state))
  {
    var a := new Trial[|s|](i requires 0 <= i < |s| => s[i]);
    assert a[..] == s;
    Shuffle(a, g);
    t := a[..];
  }

  method BuildCalibration(offsets: seq<nat>, c: nat) returns (r: seq<Trial>)
    ensures r == Calibration(offsets, c)
  {
    r := [];
    for i := 0 to |offsets|
      invariant r == Calibration(offsets[..i], c)
    {
      assert offsets[..i + 1][..i] == offsets[..i];
      for j := 0 to c
        invariant r == Calibration(offsets[..i], c) + Copies(Pair(offsets[i]), j)
      {
        r := r + [Trial(0, offsets[i])];
        r := r + [Trial(1, offsets[i])];
      }
    }
    assert offsets[..|offsets|] == offsets;
  }

  method ExtendInBlocks(s: seq<Trial>, block: seq<Trial>, target: nat, g: Generator) returns (r: seq<Trial>)
    requires block != [] || |s| >= target
    modifies g
    ensures r == Extended(s, block, target, old(g.state))
  {
    r := s;
    while |r| < target
      invariant Extended(r, block, target, g.state) == Extended(s, block, target, old(g.state))
      decreases target - |r|
    {
      var t := ShuffleSeq(block, g);
      r := r + t[..Least(|block|, target - |r|)];
    }
  }

  // The sequential lab's plan.
  method BuildLabPlan(seed: bv64, count: nat, gaps: seq<nat>, c: nat) returns (plan: seq<Trial>)
    requires gaps != []
    ensures plan == PlanOf(Start(seed, LAB_PLAN_SALT), count, gaps, c)
    ensures ShuffledThroughout(plan, Start(seed, LAB_PLAN_SALT), count, gaps, c)
  {
    hide ShuffledThroughout, Start, Next, Pick, Calibration;
    PlanIsShuffled(Start(seed, LAB_PLAN_SALT), count, gaps, c);
    var calibration := BuildCalibration(gaps, c);
    var g := new Generator(seed, LAB_PLAN_SALT);
    calibration := ShuffleSeq(calibration, g);
    plan := ExtendInBlocks(calibration, Combinations(gaps), count, g);
  }

  // The overlap benchmark's plan: the scored trials are collected on their own and appended.
  method BuildClientPlan(seed: bv64, count: nat, offsets: seq<nat>) returns (plan: seq<Trial>)
    requires offsets != [] && count >= |offsets| * CLIENT_CALIBRATION * 2
    ensures plan == PlanOf(Start(seed, CLIENT_PLAN_SALT), count, offsets, CLIENT_CALIBRATION)
    ensures ShuffledThroughout(plan, Start(seed, CLIENT_PLAN_SALT), count, offsets, CLIENT_CALIBRATION)
  {
    hide ShuffledThroughout, Next, Pick, Start, Calibration;
    PlanIsShuffled(Start(seed, CLIENT_PLAN_SALT), count, offsets, CLIENT_CALIBRATION);
    var calibration := BuildCalibration(offsets, CLIENT_CALIBRATION);
    var g := new Generator(seed, CLIENT_PLAN_SALT);
    calibration := ShuffleSeq(calibration, g);
    ghost var state := g.state;
    var scoringLen := count - |offsets| * CLIENT_CALIBRATION * 2;
    CalibrationLength(offsets, CLIENT_CALIBRATION);
    var scoring := ExtendInBlocks([], Combinations(offsets), scoringLen, g);
    plan := calibration + scoring;
    ExtendedBehind(calibration, [], Combinations(offsets), scoringLen, state);
    assert calibration + [] == calibration;
  }
}
