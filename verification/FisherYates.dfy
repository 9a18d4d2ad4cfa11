// The in-place shuffle, and what it can produce.
module FisherYates {
  import opened Counting
  import opened Xorshift

  function Swap<T>(s: seq<T>, i: nat, j: nat): (r: seq<T>)
    requires i < |s| && j < |s|
    ensures |r| == |s| && r[i] == s[j] && r[j] == s[i]
    ensures forall k :: 0 <= k < |s| && k != i && k != j ==> r[k] == s[k]
  {
    s[i := s[j]][j := s[i]]
  }

  lemma SwapPermutes<T>(s: seq<T>, i: nat, j: nat)
    requires i < |s| && j < |s|
    ensures multiset(Swap(s, i, j)) == multiset(s)
  {
    var r := Swap(s, i, j);
    if i == j {
      assert r == s;
    }
  }

  // The shuffle from position i down to 1, with the generator state it leaves.
  function Shuffled<T>(s: seq<T>, i: nat, state: bv64): (r: (seq<T>, bv64))
    requires i < |s| || i == 0
    ensures |r.0| == |s|
    decreases i
  {
    if i == 0 then (s, state)
    else Shuffled(Swap(s, i, Pick(state, i + 1)), i - 1, Next(state))
  }

  function Top(n: nat): nat {
    if n == 0 then 0 else n - 1
  }

  method Shuffle<T>(a: array<T>, g: Generator)
    modifies a, g
    ensures (a[..], g.state) == Shuffled(old(a[..]), Top(a.Length), old(g.state))
  {
    var index: nat := Top(a.Length);
    while index > 0
      invariant 0 <= index <= Top(a.Length)
      invariant Shuffled(a[..], index, g.state) == Shuffled(old(a[..]), Top(a.Length), old(g.state))
    {
      ghost var before := a[..];
      var selected := g.Index(index + 1);
      a[index], a[selected] := a[selected], a[index];
      assert a[..] == Swap(before, index, selected);
      index := index - 1;
    }
  }

  // ---------- choices ----------

  // The arrangement that a vector of picks produces: choices[i - 1] is the pick at position i.
  ghost predicate ValidChoices(choices: seq<nat>, i: nat) {
    i <= |choices| && forall k :: 0 <= k < i ==> choices[k] <= k + 1
  }

  function Arrange<T>(s: seq<T>, i: nat, choices: seq<nat>): (r: seq<T>)
    requires i < |s| || i == 0
    requires ValidChoices(choices, i)
    ensures |r| == |s|
    decreases i
  {
    if i == 0 then s else Arrange(Swap(s, i, choices[i - 1]), i - 1, choices)
  }

  // The picks the generator makes.
  function Draws(i: nat, state: bv64): (choices: seq<nat>)
    ensures |choices| == i && ValidChoices(choices, i)
  {
    if i == 0 then [] else Draws(i - 1, Next(state)) + [Pick(state, i + 1)]
  }

  // A shuffle from position i takes i steps of the generator ...
  lemma {:induction false} ShuffleSteps<T>(s: seq<T>, i: nat, state: bv64)
    requires i < |s| || i == 0
    ensures Shuffled(s, i, state).1 == After(state, i)
    decreases i
  {
    hide Next, Pick;
    assert After(state, 0) == state && After(state, 1) == Next(After(state, 0));
    if i > 0 {
      ShuffleSteps(Swap(s, i, Pick(state, i + 1)), i - 1, Next(state));
      AfterSum(state, 1, i - 1);
    }
  }

  // ... and its pick for position k is the state of its step i - k + 1 modulo k + 1.
  lemma {:induction false} DrawIsRemainder(i: nat, state: bv64, k: nat)
    requires 1 <= k <= i
    ensures Draws(i, state)[k - 1] == After(state, i - k + 1) as nat % (k + 1)
  {
    hide Next, Pick;
    assert After(state, 0) == state && After(state, 1) == Next(After(state, 0));
    if k == i {
      PickIsRemainder(state, i + 1);
    } else {
      DrawIsRemainder(i - 1, Next(state), k);
      AfterSum(state, 1, i - k);
    }
  }

  lemma {:induction false} ArrangeIgnoresRest<T>(s: seq<T>, i: nat, choices: seq<nat>, more: seq<nat>)
    requires i < |s| || i == 0
    requires ValidChoices(choices, i)
    ensures ValidChoices(choices + more, i) && Arrange(s, i, choices + more) == Arrange(s, i, choices)
    decreases i
  {
    if i > 0 {
      ArrangeIgnoresRest(Swap(s, i, choices[i - 1]), i - 1, choices, more);
    }
  }

  // The generator enters the shuffle through its picks only.
  lemma {:induction false} ShuffleIsItsDraws<T>(s: seq<T>, i: nat, state: bv64)
    requires i < |s| || i == 0
    ensures Shuffled(s, i, state).0 == Arrange(s, i, Draws(i, state))
    decreases i
  {
    if i > 0 {
      var t, rest := Swap(s, i, Pick(state, i + 1)), Draws(i - 1, Next(state));
      ShuffleIsItsDraws(t, i - 1, Next(state));
      ArrangeIgnoresRest(t, i - 1, rest, [Pick(state, i + 1)]);
    }
  }

  lemma {:induction false} ArrangePermutes<T>(s: seq<T>, i: nat, choices: seq<nat>)
    requires i < |s| || i == 0
    requires ValidChoices(choices, i)
    ensures multiset(Arrange(s, i, choices)) == multiset(s)
    ensures forall k :: i < k < |s| ==> Arrange(s, i, choices)[k] == s[k]
    decreases i
  {
    if i > 0 {
      SwapPermutes(s, i, choices[i - 1]);
      ArrangePermutes(Swap(s, i, choices[i - 1]), i - 1, choices);
    }
  }

  lemma ShufflePermutes<T>(s: seq<T>, state: bv64)
    ensures multiset(Shuffled(s, Top(|s|), state).0) == multiset(s)
  {
    ShuffleIsItsDraws(s, Top(|s|), state);
    ArrangePermutes(s, Top(|s|), Draws(Top(|s|), state));
  }

  lemma SameTail<T>(s: seq<T>, t: seq<T>)
    requires |s| == |t| && multiset(s) == multiset(t)
    requires forall k :: 0 < k < |s| ==> s[k] == t[k]
    ensures s == t
  {
    if s != [] {
      var rest := s[1..];
      assert s == [s[0]] + rest && t == [t[0]] + rest;
      CancelTail(s[0], t[0], multiset(rest));
    }
  }

  lemma CancelTail<T>(x: T, y: T, rest: multiset<T>)
    requires multiset{x} + rest == multiset{y} + rest
    ensures x == y
  {
    assert (multiset{x} + rest)[x] == rest[x] + 1;
    assert (multiset{y} + rest)[x] == rest[x] + if x == y then 1 else 0;
  }

  lemma OneChoiceMore<T>(s: seq<T>, i: nat, rest: seq<nat>, j: nat)
    requires 0 < i < |s| && |rest| == i - 1 && ValidChoices(rest, i - 1) && j <= i
    ensures ValidChoices(rest + [j], i) && Arrange(s, i, rest + [j]) == Arrange(Swap(s, i, j), i - 1, rest)
  {
    ArrangeIgnoresRest(Swap(s, i, j), i - 1, rest, [j]);
  }

  // Every rearrangement is the result of some picks ...
  lemma {:induction false} EveryArrangementArises<T>(s: seq<T>, t: seq<T>, i: nat) returns (choices: seq<nat>)
    requires |s| == |t| && (i < |s| || i == 0)
    requires multiset(s) == multiset(t)
    requires forall k :: i < k < |s| ==> s[k] == t[k]
    ensures |choices| == i && ValidChoices(choices, i) && Arrange(s, i, choices) == t
    decreases i
  {
    if i == 0 {
      choices := [];
      SameTail(s, t);
    } else {
      var j := Find(s, t, i);
      SwapPermutes(s, i, j);
      var rest := EveryArrangementArises(Swap(s, i, j), t, i - 1);
      choices := rest + [j];
      OneChoiceMore(s, i, rest, j);
    }
  }

  // The element wanted at position i is among the first i + 1.
  lemma Find<T>(s: seq<T>, t: seq<T>, i: nat) returns (j: nat)
    requires i < |s| == |t|
    requires multiset(s) == multiset(t)
    requires forall k :: i < k < |s| ==> s[k] == t[k]
    ensures j <= i && s[j] == t[i]
  {
    assert s == s[..i + 1] + s[i + 1..] && t == t[..i + 1] + t[i + 1..];
    assert s[i + 1..] == t[i + 1..];
    assert multiset(s[..i + 1]) == multiset(s) - multiset(s[i + 1..]);
    assert multiset(t[..i + 1]) == multiset(t) - multiset(s[i + 1..]);
    assert t[..i + 1][i] in multiset(t[..i + 1]);
    assert t[i] in s[..i + 1];
    j :| 0 <= j < i + 1 && s[..i + 1][j] == t[i];
  }

  lemma SwapDistinct<T>(s: seq<T>, i: nat, j: nat)
    requires i < |s| && j < |s| && Distinct(s)
    ensures Distinct(Swap(s, i, j))
  {
  }

  lemma LastPick<T>(s: seq<T>, i: nat, choices: seq<nat>)
    requires 0 < i < |s| && ValidChoices(choices, i)
    ensures Arrange(s, i, choices)[i] == s[choices[i - 1]]
  {
    ArrangePermutes(Swap(s, i, choices[i - 1]), i - 1, choices);
  }

  // ... and, among distinct elements, of exactly one vector of picks: uniform picks mean a uniform shuffle.
  lemma {:induction false} PicksAreUnique<T>(s: seq<T>, i: nat, a: seq<nat>, b: seq<nat>)
    requires i < |s| || i == 0
    requires Distinct(s)
    requires ValidChoices(a, i) && ValidChoices(b, i)
    requires Arrange(s, i, a) == Arrange(s, i, b)
    ensures a[..i] == b[..i]
    decreases i
  {
    if i > 0 {
      var x := a[i - 1];
      LastPick(s, i, a);
      LastPick(s, i, b);
      assert x == b[i - 1];
      SwapDistinct(s, i, x);
      PicksAreUnique(Swap(s, i, x), i - 1, a, b);
      assert a[..i] == a[..i - 1] + [x] && b[..i] == b[..i - 1] + [x];
    }
  }
}
