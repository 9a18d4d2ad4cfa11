// Strata of scored trials, and shuffles of the expected labels that stay inside them.
module Strata {
  import opened Counting
  import opened Xorshift
  import opened FisherYates
  import opened Sorting

  datatype Scored = Scored(expected: nat, decoded: nat, offset: nat)

  // ---------- the strata ----------

  // The different offsets in ascending order, one at a time.
  function Insert(o: nat, s: seq<nat>): seq<nat> {
    if s == [] then [o]
    else if o < s[0] then [o] + s
    else if o == s[0] then s
    else [s[0]] + Insert(o, s[1..])
  }

  function Offsets(pairs: seq<Scored>): seq<nat> {
    if pairs == [] then [] else Insert(pairs[|pairs| - 1].offset, Offsets(pairs[..|pairs| - 1]))
  }

  lemma {:induction false} InsertMembers(o: nat, s: seq<nat>, x: nat)
    ensures x in Insert(o, s) <==> x == o || x in s
  {
    if s != [] && o > s[0] {
      InsertMembers(o, s[1..], x);
      assert x in s <==> x == s[0] || x in s[1..];
    }
  }

  lemma {:induction false} InsertIsAscending(o: nat, s: seq<nat>)
    requires Ascending(s)
    ensures Ascending(Insert(o, s))
  {
    if s != [] && o > s[0] {
      InsertIsAscending(o, s[1..]);
      var t := Insert(o, s[1..]);
      forall k | 0 <= k < |t|
        ensures s[0] < t[k]
      {
        InsertMembers(o, s[1..], t[k]);
      }
    }
  }

  // The strata are the different offsets in ascending order.
  lemma {:induction false} OffsetsAreSorted(pairs: seq<Scored>)
    ensures Ascending(Offsets(pairs))
  {
    if pairs != [] {
      OffsetsAreSorted(pairs[..|pairs| - 1]);
      InsertIsAscending(pairs[|pairs| - 1].offset, Offsets(pairs[..|pairs| - 1]));
    }
  }

  lemma {:induction false} OffsetsAreThose(pairs: seq<Scored>, o: nat)
    ensures o in Offsets(pairs) <==> exists i :: 0 <= i < |pairs| && pairs[i].offset == o
  {
    if pairs != [] {
      var last := |pairs| - 1;
      OffsetsAreThose(pairs[..last], o);
      InsertMembers(pairs[last].offset, Offsets(pairs[..last]), o);
      assert forall i :: 0 <= i < last ==> pairs[..last][i] == pairs[i];
    }
  }

  function OffsetList(pairs: seq<Scored>): (r: seq<nat>)
    ensures |r| == |pairs| && forall i :: 0 <= i < |pairs| ==> r[i] == pairs[i].offset
  {
    seq(|pairs|, i requires 0 <= i < |pairs| => pairs[i].offset)
  }

  // However the offsets are sorted, merging equal neighbours leaves exactly the strata.
  lemma SortedOffsets(pairs: seq<Scored>, sorted: seq<nat>)
    requires SortedBy(UpTo(), sorted) && multiset(sorted) == multiset(OffsetList(pairs))
    ensures Dedup(sorted) == Offsets(pairs)
  {
    DedupIsAscending(sorted);
    OffsetsAreSorted(pairs);
    forall o
      ensures o in Dedup(sorted) <==> o in Offsets(pairs)
    {
      DedupMembers(sorted, o);
      OffsetsAreThose(pairs, o);
      assert o in sorted <==> o in multiset(OffsetList(pairs));
      assert o in OffsetList(pairs) <==> exists i :: 0 <= i < |pairs| && pairs[i].offset == o;
    }
    AscendingIsUnique(Dedup(sorted), Offsets(pairs));
  }

  // The positions of a stratum, ascending.
  function Group(pairs: seq<Scored>, o: nat): seq<nat> {
    if pairs == [] then []
    else Group(pairs[..|pairs| - 1], o) + if pairs[|pairs| - 1].offset == o then [|pairs| - 1] else []
  }

  lemma {:induction false} GroupMembers(pairs: seq<Scored>, o: nat, i: nat)
    ensures i in Group(pairs, o) <==> i < |pairs| && pairs[i].offset == o
  {
    if pairs != [] {
      GroupMembers(pairs[..|pairs| - 1], o, i);
    }
  }

  lemma {:induction false} GroupIsAscending(pairs: seq<Scored>, o: nat)
    ensures Ascending(Group(pairs, o))
  {
    if pairs != [] {
      var front := Group(pairs[..|pairs| - 1], o);
      GroupIsAscending(pairs[..|pairs| - 1], o);
      forall k | 0 <= k < |front|
        ensures front[k] < |pairs| - 1
      {
        GroupMembers(pairs[..|pairs| - 1], o, front[k]);
      }
    }
  }

  function Groups(pairs: seq<Scored>, offsets: seq<nat>): (r: seq<seq<nat>>)
    ensures |r| == |offsets|
    ensures forall j :: 0 <= j < |r| ==> r[j] == Group(pairs, offsets[j])
  {
    if offsets == [] then []
    else Groups(pairs, offsets[..|offsets| - 1]) + [Group(pairs, offsets[|offsets| - 1])]
  }

  // Every position lies in exactly one group, the one of its offset.
  lemma StrataPartition(pairs: seq<Scored>, i: nat) returns (j: nat)
    requires i < |pairs|
    ensures j < |Offsets(pairs)| && Offsets(pairs)[j] == pairs[i].offset
    ensures forall m :: 0 <= m < |Offsets(pairs)| ==> (i in Groups(pairs, Offsets(pairs))[m] <==> m == j)
  {
    var offsets := Offsets(pairs);
    OffsetsAreSorted(pairs);
    OffsetsAreThose(pairs, pairs[i].offset);
    j :| 0 <= j < |offsets| && offsets[j] == pairs[i].offset;
    forall m | 0 <= m < |offsets|
      ensures i in Groups(pairs, offsets)[m] <==> m == j
    {
      GroupMembers(pairs, offsets[m], i);
    }
  }

  // ---------- shuffles within the strata ----------

  // All positions of the group are positions of one stratum.
  ghost predicate InStratum(pairs: seq<Scored>, group: seq<nat>) {
    && (forall k :: 0 <= k < |group| ==> group[k] < |pairs|)
    && (forall j, k :: 0 <= j < |group| && 0 <= k < |group| ==> pairs[group[j]].offset == pairs[group[k]].offset)
  }

  ghost predicate Within(group: seq<nat>, n: nat) {
    forall k :: 0 <= k < |group| ==> group[k] < n
  }

  ghost predicate AllWithin(groups: seq<seq<nat>>, n: nat) {
    forall j :: 0 <= j < |groups| ==> Within(groups[j], n)
  }

  // The labels at the positions of one group, shuffled from position i of the group down to 1.
  function ShuffledGroup(e: seq<nat>, group: seq<nat>, i: nat, state: bv64): (r: (seq<nat>, bv64))
    requires Within(group, |e|) && (i < |group| || i == 0)
    ensures |r.0| == |e|
    decreases i
  {
    if i == 0 then (e, state)
    else ShuffledGroup(Swap(e, group[i], group[Pick(state, i + 1)]), group, i - 1, Next(state))
  }

  function ShuffledGroups(e: seq<nat>, groups: seq<seq<nat>>, m: nat, state: bv64): (r: (seq<nat>, bv64))
    requires AllWithin(groups, |e|) && m <= |groups|
    ensures |r.0| == |e|
  {
    if m == 0 then (e, state)
    else
      var (f, next) := ShuffledGroups(e, groups, m - 1, state);
      ShuffledGroup(f, groups[m - 1], Top(|groups[m - 1]|), next)
  }

  // n rounds of shuffling all groups.
  function Rounds(e: seq<nat>, groups: seq<seq<nat>>, n: nat, state: bv64): (r: (seq<nat>, bv64))
    requires AllWithin(groups, |e|)
    ensures |r.0| == |e|
  {
    if n == 0 then (e, state)
    else
      var (f, next) := Rounds(e, groups, n - 1, state);
      ShuffledGroups(f, groups, |groups|, next)
  }

  method ShuffleGroup(a: array<nat>, group: seq<nat>, g: Generator)
    requires Within(group, a.Length)
    modifies a, g
    ensures (a[..], g.state) == ShuffledGroup(old(a[..]), group, Top(|group|), old(g.state))
  {
    hide Next, Pick;
    var i: nat := Top(|group|);
    while i > 0
      invariant 0 <= i <= Top(|group|)
      invariant ShuffledGroup(a[..], group, i, g.state) == ShuffledGroup(old(a[..]), group, Top(|group|), old(g.state))
    {
      ghost var before := a[..];
      var j := g.Index(i + 1);
      a[group[i]], a[group[j]] := a[group[j]], a[group[i]];
      assert a[..] == Swap(before, group[i], group[j]);
      i := i - 1;
    }
  }

  method ShuffleGroups(a: array<nat>, groups: seq<seq<nat>>, g: Generator)
    requires AllWithin(groups, a.Length)
    modifies a, g
    ensures (a[..], g.state) == ShuffledGroups(old(a[..]), groups, |groups|, old(g.state))
  {
    hide Next, Pick;
    for m := 0 to |groups|
      invariant (a[..], g.state) == ShuffledGroups(old(a[..]), groups, m, old(g.state))
    {
      ShuffleGroup(a, groups[m], g);
    }
  }

  // Within its group the shuffle is the ordinary one: same picks, same rearrangement, same state.
  function Gather(e: seq<nat>, group: seq<nat>): (r: seq<nat>)
    requires Within(group, |e|)
    ensures |r| == |group| && forall k :: 0 <= k < |group| ==> r[k] == e[group[k]]
  {
    if group == [] then [] else Gather(e, group[..|group| - 1]) + [e[group[|group| - 1]]]
  }

  lemma {:induction false} GroupShuffleIsShuffle(e: seq<nat>, group: seq<nat>, i: nat, state: bv64)
    requires Within(group, |e|) && (i < |group| || i == 0) && Distinct(group)
    ensures var (f, next) := ShuffledGroup(e, group, i, state);
            (Gather(f, group), next) == Shuffled(Gather(e, group), i, state)
    decreases i
  {
    hide Next, Pick, Distinct, Gather, Swap;
    if i > 0 {
      var j := Pick(state, i + 1);
      GatherSwap(e, group, i, j);
      GroupShuffleIsShuffle(Swap(e, group[i], group[j]), group, i - 1, Next(state));
    }
  }

  lemma {:induction false} GroupLeavesRest(e: seq<nat>, group: seq<nat>, i: nat, state: bv64, k: nat)
    requires Within(group, |e|) && (i < |group| || i == 0) && k < |e| && k !in group
    ensures ShuffledGroup(e, group, i, state).0[k] == e[k]
    decreases i
  {
    hide Next, Pick;
    if i > 0 {
      GroupLeavesRest(Swap(e, group[i], group[Pick(state, i + 1)]), group, i - 1, Next(state), k);
    }
  }

  lemma GatherSwap(e: seq<nat>, group: seq<nat>, i: nat, j: nat)
    requires Within(group, |e|) && i < |group| && j < |group| && Distinct(group)
    ensures Gather(Swap(e, group[i], group[j]), group) == Swap(Gather(e, group), i, j)
  {
    var a, b := Gather(Swap(e, group[i], group[j]), group), Swap(Gather(e, group), i, j);
    forall k | 0 <= k < |group|
      ensures a[k] == b[k]
    {
    }
  }

  // ---------- what a swap within a stratum keeps ----------

  ghost predicate Keeps(inv: seq<nat> -> bool, pairs: seq<Scored>) {
    forall e: seq<nat>, i: nat, j: nat ::
      |e| == |pairs| && inv(e) && i < |e| && j < |e| && pairs[i].offset == pairs[j].offset ==> inv(Swap(e, i, j))
  }

  ghost predicate AllInStrata(pairs: seq<Scored>, groups: seq<seq<nat>>) {
    forall j :: 0 <= j < |groups| ==> InStratum(pairs, groups[j])
  }

  // Whatever every swap within a stratum keeps, all rounds keep.
  lemma {:induction false} GroupKeeps(inv: seq<nat> -> bool, pairs: seq<Scored>, e: seq<nat>, group: seq<nat>,
                                      i: nat, state: bv64)
    requires Keeps(inv, pairs) && |e| == |pairs| && inv(e)
    requires InStratum(pairs, group) && (i < |group| || i == 0)
    ensures inv(ShuffledGroup(e, group, i, state).0)
    decreases i
  {
    hide Next, Pick;
    if i > 0 {
      var j := Pick(state, i + 1);
      GroupKeeps(inv, pairs, Swap(e, group[i], group[j]), group, i - 1, Next(state));
    }
  }

  lemma {:induction false} GroupsKeep(inv: seq<nat> -> bool, pairs: seq<Scored>, e: seq<nat>, groups: seq<seq<nat>>,
                                      m: nat, state: bv64)
    requires Keeps(inv, pairs) && |e| == |pairs| && inv(e)
    requires AllInStrata(pairs, groups) && AllWithin(groups, |e|) && m <= |groups|
    ensures inv(ShuffledGroups(e, groups, m, state).0)
  {
    hide Next, Pick, Keeps;
    if m > 0 {
      GroupsKeep(inv, pairs, e, groups, m - 1, state);
      var (f, next) := ShuffledGroups(e, groups, m - 1, state);
      GroupKeeps(inv, pairs, f, groups[m - 1], Top(|groups[m - 1]|), next);
    }
  }

  lemma {:induction false} RoundsKeep(inv: seq<nat> -> bool, pairs: seq<Scored>, e: seq<nat>, groups: seq<seq<nat>>,
                                      n: nat, state: bv64)
    requires Keeps(inv, pairs) && |e| == |pairs| && inv(e)
    requires AllInStrata(pairs, groups) && AllWithin(groups, |e|)
    ensures inv(Rounds(e, groups, n, state).0)
  {
    hide Next, Pick, Keeps;
    if n > 0 {
      RoundsKeep(inv, pairs, e, groups, n - 1, state);
      var (f, next) := Rounds(e, groups, n - 1, state);
      GroupsKeep(inv, pairs, f, groups, |groups|, next);
    }
  }

  lemma StrataAreStrata(pairs: seq<Scored>)
    ensures AllInStrata(pairs, Groups(pairs, Offsets(pairs)))
    ensures AllWithin(Groups(pairs, Offsets(pairs)), |pairs|)
  {
    var offsets := Offsets(pairs);
    forall j | 0 <= j < |offsets|
      ensures InStratum(pairs, Group(pairs, offsets[j])) && Within(Group(pairs, offsets[j]), |pairs|)
    {
      OneStratum(pairs, offsets[j]);
    }
  }

  lemma OneStratum(pairs: seq<Scored>, o: nat)
    ensures InStratum(pairs, Group(pairs, o)) && Within(Group(pairs, o), |pairs|)
  {
    var group := Group(pairs, o);
    forall k | 0 <= k < |group|
      ensures group[k] < |pairs| && pairs[group[k]].offset == o
    {
      GroupMembers(pairs, o, group[k]);
    }
  }

  // ---------- one round, stratum by stratum ----------

  // The labels and the state after the first m strata of a round.
  function PartRound(pairs: seq<Scored>, e: seq<nat>, m: nat, state: bv64): (r: (seq<nat>, bv64))
    requires |e| == |pairs| && m <= |Offsets(pairs)|
    ensures |r.0| == |e|
  {
    StrataAreStrata(pairs);
    ShuffledGroups(e, Groups(pairs, Offsets(pairs)), m, state)
  }

  // Positions outside the groups m..n keep their labels while these are shuffled.
  lemma {:induction false} GroupsLeaveRest(e: seq<nat>, groups: seq<seq<nat>>, m: nat, n: nat, state: bv64, i: nat)
    requires AllWithin(groups, |e|) && m <= n <= |groups| && i < |e|
    requires forall k :: m <= k < n ==> i !in groups[k]
    ensures ShuffledGroups(e, groups, n, state).0[i] == ShuffledGroups(e, groups, m, state).0[i]
  {
    hide Next, Pick;
    if m < n {
      GroupsLeaveRest(e, groups, m, n - 1, state, i);
      var (f, next) := ShuffledGroups(e, groups, n - 1, state);
      GroupLeavesRest(f, groups[n - 1], Top(|groups[n - 1]|), next, i);
    }
  }

  lemma GatherAgrees(e: seq<nat>, f: seq<nat>, group: seq<nat>)
    requires Within(group, |e|) && Within(group, |f|)
    requires forall k :: 0 <= k < |group| ==> e[group[k]] == f[group[k]]
    ensures Gather(e, group) == Gather(f, group)
  {
  }

  // A whole round does to the labels of each stratum what the ordinary shuffle does to them alone, from
  // the state that the strata before it leave behind.
  lemma RoundShufflesEachStratum(pairs: seq<Scored>, e: seq<nat>, m: nat, state: bv64)
    requires |e| == |pairs| && m < |Offsets(pairs)|
    ensures var group := Group(pairs, Offsets(pairs)[m]);
            && Within(group, |e|)
            && Gather(PartRound(pairs, e, |Offsets(pairs)|, state).0, group)
            == Shuffled(Gather(e, group), Top(|group|), PartRound(pairs, e, m, state).1).0
  {
    hide Next, Pick, Shuffled, ShuffledGroup, Group, Groups, Offsets, Gather, AllInStrata;
    StrataAreStrata(pairs);
    var groups := Groups(pairs, Offsets(pairs));
    var group := groups[m];
    var before, after := PartRound(pairs, e, m, state), PartRound(pairs, e, m + 1, state);
    var whole := PartRound(pairs, e, |groups|, state);
    GroupIsAscending(pairs, Offsets(pairs)[m]);
    GroupShuffleIsShuffle(before.0, group, Top(|group|), before.1);
    forall k | 0 <= k < |group|
      ensures before.0[group[k]] == e[group[k]] && whole.0[group[k]] == after.0[group[k]]
    {
      var j := StrataPartition(pairs, group[k]);
      GroupsLeaveRest(e, groups, 0, m, state, group[k]);
      GroupsLeaveRest(e, groups, m + 1, |groups|, state, group[k]);
    }
    GatherAgrees(before.0, e, group);
    GatherAgrees(whole.0, after.0, group);
  }

  // ---------- the labels of every stratum are only rearranged ----------

  function Labels(e: seq<nat>, pairs: seq<Scored>): (r: seq<(nat, nat)>)
    requires |e| == |pairs|
    ensures |r| == |e| && forall i :: 0 <= i < |e| ==> r[i] == (e[i], pairs[i].offset)
  {
    seq(|e|, i requires 0 <= i < |e| => (e[i], pairs[i].offset))
  }

  function Expected(pairs: seq<Scored>): (r: seq<nat>)
    ensures |r| == |pairs| && forall i :: 0 <= i < |pairs| ==> r[i] == pairs[i].expected
  {
    seq(|pairs|, i requires 0 <= i < |pairs| => pairs[i].expected)
  }

  // The labels and the generator state after n rounds on a report's scored pairs.
  function Permuted(pairs: seq<Scored>, n: nat, state: bv64): (r: (seq<nat>, bv64))
    ensures |r.0| == |pairs|
  {
    StrataAreStrata(pairs);
    Rounds(Expected(pairs), Groups(pairs, Offsets(pairs)), n, state)
  }

  lemma LabelsSwap(e: seq<nat>, pairs: seq<Scored>, i: nat, j: nat)
    requires |e| == |pairs| && i < |e| && j < |e| && pairs[i].offset == pairs[j].offset
    ensures multiset(Labels(Swap(e, i, j), pairs)) == multiset(Labels(e, pairs))
  {
    assert Labels(Swap(e, i, j), pairs) == Swap(Labels(e, pairs), i, j);
    SwapPermutes(Labels(e, pairs), i, j);
  }

  // After any number of rounds each stratum holds the labels it held at first.
  lemma RoundsStayInStrata(pairs: seq<Scored>, n: nat, state: bv64)
    ensures var e := Permuted(pairs, n, state).0;
            multiset(Labels(e, pairs)) == multiset(Labels(Expected(pairs), pairs))
  {
    hide Next, Pick;
    var start := Labels(Expected(pairs), pairs);
    var inv := (e: seq<nat>) => |e| == |pairs| && multiset(Labels(e, pairs)) == multiset(start);
    forall e: seq<nat>, i: nat, j: nat |
      |e| == |pairs| && inv(e) && i < |e| && j < |e| && pairs[i].offset == pairs[j].offset
      ensures inv(Swap(e, i, j))
    {
      LabelsSwap(e, pairs, i, j);
    }
    StrataAreStrata(pairs);
    RoundsKeep(inv, pairs, Expected(pairs), Groups(pairs, Offsets(pairs)), n, state);
  }

  // ---------- every round, in terms of shuffles and generator states alone ----------

  // The generator steps that the first m strata of a round take.
  function StepsBefore(pairs: seq<Scored>, m: nat): nat
    requires m <= |Offsets(pairs)|
  {
    if m == 0 then 0 else StepsBefore(pairs, m - 1) + Top(|Group(pairs, Offsets(pairs)[m - 1])|)
  }

  lemma {:induction false} GroupSteps(e: seq<nat>, group: seq<nat>, i: nat, state: bv64)
    requires Within(group, |e|) && (i < |group| || i == 0)
    ensures ShuffledGroup(e, group, i, state).1 == After(state, i)
    decreases i
  {
    hide Next, Pick;
    assert After(state, 0) == state && After(state, 1) == Next(After(state, 0));
    if i > 0 {
      GroupSteps(Swap(e, group[i], group[Pick(state, i + 1)]), group, i - 1, Next(state));
      AfterSum(state, 1, i - 1);
    }
  }

  lemma {:induction false} PartRoundSteps(pairs: seq<Scored>, e: seq<nat>, m: nat, state: bv64)
    requires |e| == |pairs| && m <= |Offsets(pairs)|
    ensures PartRound(pairs, e, m, state).1 == After(state, StepsBefore(pairs, m))
  {
    hide Next, Pick, Group, Offsets;
    assert After(state, 0) == state;
    if m > 0 {
      StrataAreStrata(pairs);
      PartRoundSteps(pairs, e, m - 1, state);
      var (f, next) := PartRound(pairs, e, m - 1, state);
      var group := Groups(pairs, Offsets(pairs))[m - 1];
      GroupSteps(f, group, Top(|group|), next);
      AfterSum(state, StepsBefore(pairs, m - 1), Top(|group|));
    }
  }

  // One more round is one more pass over all strata.
  lemma OneMoreRound(pairs: seq<Scored>, n: nat, start: bv64)
    ensures var (e, state) := Permuted(pairs, n, start);
            Permuted(pairs, n + 1, start) == PartRound(pairs, e, |Offsets(pairs)|, state)
  {
    hide Next, Pick, ShuffledGroups;
    StrataAreStrata(pairs);
  }

  lemma {:induction false} RoundSteps(pairs: seq<Scored>, n: nat, start: bv64)
    ensures Permuted(pairs, n, start).1 == After(start, Times(n, StepsBefore(pairs, |Offsets(pairs)|)))
  {
    hide Next, Pick, StepsBefore, PartRound, ShuffledGroups, Times;
    var steps := StepsBefore(pairs, |Offsets(pairs)|);
    OneRoundMore(n, steps);
    if n == 0 {
      NoRounds(pairs, start);
    } else {
      hide Permuted, After;
      RoundSteps(pairs, n - 1, start);
      OneMoreRound(pairs, n - 1, start);
      var (e, state) := Permuted(pairs, n - 1, start);
      PartRoundSteps(pairs, e, |Offsets(pairs)|, state);
      AfterSum(start, Times(n - 1, steps), steps);
    }
  }

  function Times(n: nat, steps: nat): nat { n * steps }

  lemma OneRoundMore(n: nat, steps: nat)
    ensures Times(n, steps) == if n == 0 then 0 else Times(n - 1, steps) + steps
  {
  }

  lemma NoRounds(pairs: seq<Scored>, start: bv64)
    ensures Permuted(pairs, 0, start) == (Expected(pairs), start)
  {
    StrataAreStrata(pairs);
  }

  // The generator when round n + 1 comes to stratum m: all rounds and strata before it have drawn.
  ghost function StateBefore(pairs: seq<Scored>, n: nat, m: nat, start: bv64): bv64
    requires m <= |Offsets(pairs)|
  {
    After(start, Times(n, StepsBefore(pairs, |Offsets(pairs)|)) + StepsBefore(pairs, m))
  }

  lemma RoundReaches(pairs: seq<Scored>, n: nat, m: nat, start: bv64)
    requires m <= |Offsets(pairs)|
    ensures var (e, state) := Permuted(pairs, n, start);
            PartRound(pairs, e, m, state).1 == StateBefore(pairs, n, m, start)
  {
    hide Next, Pick, StepsBefore, PartRound, Permuted, After, Offsets, Times;
    var (e, state) := Permuted(pairs, n, start);
    RoundSteps(pairs, n, start);
    PartRoundSteps(pairs, e, m, state);
    AfterSum(start, Times(n, StepsBefore(pairs, |Offsets(pairs)|)), StepsBefore(pairs, m));
  }

  // Round n + 1 shuffles the labels of every stratum as round n left them; before the first round they are
  // the observed ones.
  lemma EveryRoundShuffles(pairs: seq<Scored>, n: nat, m: nat, start: bv64)
    requires m < |Offsets(pairs)|
    ensures var group := Group(pairs, Offsets(pairs)[m]);
            && Within(group, |pairs|)
            && Gather(Permuted(pairs, n + 1, start).0, group)
            == Shuffled(Gather(Permuted(pairs, n, start).0, group), Top(|group|), StateBefore(pairs, n, m, start)).0
    ensures Permuted(pairs, 0, start).0 == Expected(pairs)
  {
    hide Next, Pick, PartRound, Permuted, Shuffled, Gather, Group, Offsets, StateBefore;
    NoRounds(pairs, start);
    var (e, state) := Permuted(pairs, n, start);
    OneMoreRound(pairs, n, start);
    RoundReaches(pairs, n, m, start);
    RoundShufflesEachStratum(pairs, e, m, state);
  }

  // Hence no count of labels changes, in any stratum or overall.
  lemma MarginsAreFixed(pairs: seq<Scored>, n: nat, state: bv64, f: ((nat, nat)) -> bool)
    ensures var e := Permuted(pairs, n, state).0;
            Tally(f, Labels(e, pairs)) == Tally(f, Labels(Expected(pairs), pairs))
  {
    hide Next, Pick;
    var e := Permuted(pairs, n, state).0;
    RoundsStayInStrata(pairs, n, state);
    TallyOfPermutation(f, Labels(e, pairs), Labels(Expected(pairs), pairs));
  }
}
