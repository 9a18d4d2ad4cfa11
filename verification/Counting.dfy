// Counting and adding up the elements of a sequence.
module Counting {
  function Tally<T>(f: T -> bool, xs: seq<T>): nat {
    if xs == [] then 0
    else Tally(f, xs[..|xs| - 1]) + if f(xs[|xs| - 1]) then 1 else 0
  }

  lemma {:induction false} TallyUpdate<T>(f: T -> bool, xs: seq<T>, i: nat, x: T)
    requires i < |xs|
    ensures Tally(f, xs[i := x]) ==
            Tally(f, xs) - (if f(xs[i]) then 1 else 0) + (if f(x) then 1 else 0)
  {
    var last := |xs| - 1;
    if i < last {
      TallyUpdate(f, xs[..last], i, x);
      assert xs[i := x][..last] == xs[..last][i := x];
    } else {
      assert xs[i := x][..last] == xs[..last];
    }
  }

  lemma {:induction false} TallyBounds<T>(f: T -> bool, xs: seq<T>, lo: nat, hi: nat)
    requires lo <= hi <= |xs|
    ensures (forall i :: lo <= i < hi ==> f(xs[i])) ==> Tally(f, xs) >= hi - lo
    ensures (forall i :: 0 <= i < |xs| && f(xs[i]) ==> lo <= i < hi) ==> Tally(f, xs) <= hi - lo
  {
    if xs != [] {
      var last := |xs| - 1;
      var front := xs[..last];
      TallyBounds(f, front, if lo <= last then lo else last, if hi <= last then hi else last);
      assert forall i :: 0 <= i < last ==> front[i] == xs[i];
      // Mentioning the last element makes both hypotheses apply to it.
      var counted := f(xs[last]);
    }
  }

  lemma {:induction false} TallyAgrees<T>(f: T -> bool, a: seq<T>, b: seq<T>)
    requires |a| == |b| && forall j :: 0 <= j < |a| ==> f(a[j]) == f(b[j])
    ensures Tally(f, a) == Tally(f, b)
  {
    if a != [] {
      TallyAgrees(f, a[..|a| - 1], b[..|b| - 1]);
    }
  }

  lemma {:induction false} TallyConcat<T>(f: T -> bool, a: seq<T>, b: seq<T>)
    ensures Tally(f, a + b) == Tally(f, a) + Tally(f, b)
  {
    if b == [] {
      assert a + b == a;
    } else {
      TallyConcat(f, a, b[..|b| - 1]);
      assert (a + b)[..|a + b| - 1] == a + b[..|b| - 1];
    }
  }

  // A tally does not depend on the order of the elements.
  lemma {:induction false} TallyOfPermutation<T>(f: T -> bool, a: seq<T>, b: seq<T>)
    requires multiset(a) == multiset(b)
    ensures Tally(f, a) == Tally(f, b)
    decreases |a|
  {
    if a == [] {
      assert |multiset(b)| == 0;
    } else {
      var last := |a| - 1;
      assert a[last] in multiset(b);
      var i :| 0 <= i < |b| && b[i] == a[last];
      var rest := b[..i] + b[i + 1..];
      RestOfPermutation(a, b, i);
      TallyOfPermutation(f, a[..last], rest);
      TallyWithout(f, b, i);
    }
  }

  lemma RestOfPermutation<T>(a: seq<T>, b: seq<T>, i: nat)
    requires multiset(a) == multiset(b) && a != [] && i < |b| && b[i] == a[|a| - 1]
    ensures multiset(a[..|a| - 1]) == multiset(b[..i] + b[i + 1..])
  {
    assert a == a[..|a| - 1] + [b[i]];
    assert b == b[..i] + [b[i]] + b[i + 1..];
    assert multiset(b[..i] + b[i + 1..]) == multiset(b) - multiset{b[i]};
    assert multiset(a[..|a| - 1]) == multiset(a) - multiset{b[i]};
  }

  lemma TallyWithout<T>(f: T -> bool, b: seq<T>, i: nat)
    requires i < |b|
    ensures Tally(f, b) == Tally(f, b[..i] + b[i + 1..]) + if f(b[i]) then 1 else 0
  {
    hide Tally;
    var front, x, tail := b[..i], b[i], b[i + 1..];
    TallyAppend(f, front, x);
    TallyConcat(f, front + [x], tail);
    TallyConcat(f, front, tail);
    assert b == front + [x] + tail;
  }

  lemma TallyAppend<T>(f: T -> bool, front: seq<T>, x: T)
    ensures Tally(f, front + [x]) == Tally(f, front) + if f(x) then 1 else 0
  {
    assert (front + [x])[..|front|] == front;
  }

  // The sum of a measure over the elements.
  function Total<T>(f: T -> nat, xs: seq<T>): nat {
    if xs == [] then 0 else Total(f, xs[..|xs| - 1]) + f(xs[|xs| - 1])
  }

  lemma {:induction false} TotalUpdate<T>(f: T -> nat, xs: seq<T>, i: nat, x: T)
    requires i < |xs|
    ensures Total(f, xs[i := x]) == Total(f, xs) - f(xs[i]) + f(x)
  {
    var last := |xs| - 1;
    if i < last {
      TotalUpdate(f, xs[..last], i, x);
      assert xs[i := x][..last] == xs[..last][i := x];
    } else {
      assert xs[i := x][..last] == xs[..last];
    }
  }

  function Equals<T(==)>(x: T): T -> bool { y => y == x }

  // How often x occurs.
  function Count<T(==)>(xs: seq<T>, x: T): nat {
    Tally(Equals(x), xs)
  }

  lemma CountConcat<T>(a: seq<T>, b: seq<T>, x: T)
    ensures Count(a + b, x) == Count(a, x) + Count(b, x)
  {
    TallyConcat(Equals(x), a, b);
  }

  lemma {:induction false} CountIsMultiplicity<T>(xs: seq<T>, x: T)
    ensures Count(xs, x) == multiset(xs)[x]
  {
    if xs != [] {
      CountIsMultiplicity(xs[..|xs| - 1], x);
      assert xs == xs[..|xs| - 1] + [xs[|xs| - 1]];
    }
  }

  lemma CountsAgree<T>(a: seq<T>, b: seq<T>, x: T)
    ensures multiset(a) == multiset(b) ==> Count(a, x) == Count(b, x)
    ensures multiset(a) <= multiset(b) ==> Count(a, x) <= Count(b, x)
  {
    CountIsMultiplicity(a, x);
    CountIsMultiplicity(b, x);
  }

  ghost predicate Distinct<T>(s: seq<T>) {
    forall j, k :: 0 <= j < k < |s| ==> s[j] != s[k]
  }

  function Sum(xs: seq<real>): real {
    if xs == [] then 0.0 else Sum(xs[..|xs| - 1]) + xs[|xs| - 1]
  }

  lemma {:induction false} SumConcat(a: seq<real>, b: seq<real>)
    ensures Sum(a + b) == Sum(a) + Sum(b)
    ensures forall x :: Sum([x]) == x
  {
    if b == [] {
      assert a + b == a;
    } else {
      SumConcat(a, b[..|b| - 1]);
      assert (a + b)[..|a + b| - 1] == a + b[..|b| - 1];
    }
    forall x: real
      ensures Sum([x]) == x
    {
      assert [x][..0] == [];
    }
  }
}
