// Sorting by a total order, as the specification of the library's sorts: whatever algorithm is used, the
// result is the same.
module Sorting {
  import opened Counting

  ghost predicate TotalOrder<T(!new)>(le: (T, T) -> bool) {
    && (forall x, y :: le(x, y) || le(y, x))
    && (forall x, y :: le(x, y) && le(y, x) ==> x == y)
    && (forall x, y, z :: le(x, y) && le(y, z) ==> le(x, z))
  }

  ghost predicate SortedBy<T>(le: (T, T) -> bool, s: seq<T>) {
    forall j, k :: 0 <= j < k < |s| ==> le(s[j], s[k])
  }

  // x behind everything that does not exceed it.
  function InsertBy<T>(le: (T, T) -> bool, x: T, s: seq<T>): seq<T> {
    if s == [] || le(s[|s| - 1], x) then s + [x]
    else InsertBy(le, x, s[..|s| - 1]) + [s[|s| - 1]]
  }

  function SortBy<T>(le: (T, T) -> bool, xs: seq<T>): (r: seq<T>) {
    if xs == [] then [] else InsertBy(le, xs[|xs| - 1], SortBy(le, xs[..|xs| - 1]))
  }

  lemma {:induction false} InsertAdds<T>(le: (T, T) -> bool, x: T, s: seq<T>)
    ensures multiset(InsertBy(le, x, s)) == multiset(s) + multiset{x}
  {
    if s != [] && !le(s[|s| - 1], x) {
      InsertAdds(le, x, s[..|s| - 1]);
      assert s == s[..|s| - 1] + [s[|s| - 1]];
    }
  }

  lemma {:induction false} InsertIsBounded<T>(le: (T, T) -> bool, x: T, s: seq<T>, bound: T)
    requires le(x, bound) && forall k :: 0 <= k < |s| ==> le(s[k], bound)
    ensures forall k :: 0 <= k < |InsertBy(le, x, s)| ==> le(InsertBy(le, x, s)[k], bound)
  {
    if s != [] && !le(s[|s| - 1], x) {
      InsertIsBounded(le, x, s[..|s| - 1], bound);
    }
  }

  lemma AppendGreatest<T>(le: (T, T) -> bool, s: seq<T>, x: T)
    requires SortedBy(le, s) && forall k :: 0 <= k < |s| ==> le(s[k], x)
    ensures SortedBy(le, s + [x])
  {
  }

  lemma LastBounds<T(!new)>(le: (T, T) -> bool, s: seq<T>, x: T)
    requires TotalOrder(le) && SortedBy(le, s) && s != [] && le(s[|s| - 1], x)
    ensures forall k :: 0 <= k < |s| ==> le(s[k], x)
  {
    assert forall k :: 0 <= k < |s| ==> k == |s| - 1 || le(s[k], s[|s| - 1]);
  }

  lemma {:induction false} InsertIsSorted<T(!new)>(le: (T, T) -> bool, x: T, s: seq<T>)
    requires TotalOrder(le) && SortedBy(le, s)
    ensures SortedBy(le, InsertBy(le, x, s))
  {
    if s == [] {
    } else if le(s[|s| - 1], x) {
      LastBounds(le, s, x);
      AppendGreatest(le, s, x);
    } else {
      var front, last := s[..|s| - 1], s[|s| - 1];
      assert le(x, last);
      hide TotalOrder;
      InsertIsSorted(le, x, front);
      InsertIsBounded(le, x, front, last);
      AppendGreatest(le, InsertBy(le, x, front), last);
    }
  }

  lemma {:induction false} SortIsSorted<T(!new)>(le: (T, T) -> bool, xs: seq<T>)
    requires TotalOrder(le)
    ensures multiset(SortBy(le, xs)) == multiset(xs)
    ensures SortedBy(le, SortBy(le, xs))
  {
    hide TotalOrder;
    if xs != [] {
      SortIsSorted(le, xs[..|xs| - 1]);
      InsertIsSorted(le, xs[|xs| - 1], SortBy(le, xs[..|xs| - 1]));
      InsertAdds(le, xs[|xs| - 1], SortBy(le, xs[..|xs| - 1]));
      assert xs == xs[..|xs| - 1] + [xs[|xs| - 1]];
    }
  }

  // A sequence has one sorted rearrangement only.
  lemma {:induction false} SortedIsUnique<T(!new)>(le: (T, T) -> bool, s: seq<T>, t: seq<T>)
    requires TotalOrder(le) && SortedBy(le, s) && SortedBy(le, t) && multiset(s) == multiset(t)
    ensures s == t
  {
    hide TotalOrder;
    assert |s| == |multiset(s)| == |multiset(t)| == |t|;
    if s != [] {
      var last := |s| - 1;
      SameLast(le, s, t);
      RestOfPermutation(s, t, last);
      assert t[..last] + t[last + 1..] == t[..last];
      SortedIsUnique(le, s[..last], t[..last]);
      assert s == s[..last] + [s[last]] && t == t[..last] + [t[last]];
    }
  }

  lemma SameLast<T(!new)>(le: (T, T) -> bool, s: seq<T>, t: seq<T>)
    requires TotalOrder(le) && SortedBy(le, s) && SortedBy(le, t) && multiset(s) == multiset(t)
    requires s != [] && t != []
    ensures s[|s| - 1] == t[|t| - 1]
  {
    LastIsGreatest(le, s, t);
    LastIsGreatest(le, t, s);
  }

  lemma LastIsGreatest<T(!new)>(le: (T, T) -> bool, s: seq<T>, t: seq<T>)
    requires TotalOrder(le) && SortedBy(le, s) && multiset(s) == multiset(t) && s != [] && t != []
    ensures le(t[|t| - 1], s[|s| - 1])
  {
    assert t[|t| - 1] in multiset(s);
    var i :| 0 <= i < |s| && s[i] == t[|t| - 1];
  }

  // What the library promises of its unstable sort.
  method SortUnstable<T(!new)>(le: (T, T) -> bool, xs: seq<T>) returns (r: seq<T>)
    requires TotalOrder(le)
    ensures SortedBy(le, r) && multiset(r) == multiset(xs)
  {
    hide TotalOrder;
    r := [];
    for i := 0 to |xs|
      invariant SortedBy(le, r) && multiset(r) == multiset(xs[..i])
    {
      assert xs[..i + 1] == xs[..i] + [xs[i]];
      InsertIsSorted(le, xs[i], r);
      InsertAdds(le, xs[i], r);
      r := InsertBy(le, xs[i], r);
    }
    assert xs[..|xs|] == xs;
  }

  // ---------- removing repetitions ----------

  function UpTo(): (nat, nat) -> bool { (x, y) => x <= y }

  // Neighbours that are equal are merged.
  function Dedup(s: seq<nat>): seq<nat> {
    if s == [] then []
    else
      var front, last := s[..|s| - 1], s[|s| - 1];
      if front != [] && front[|front| - 1] == last then Dedup(front) else Dedup(front) + [last]
  }

  ghost predicate Ascending(s: seq<nat>) {
    forall j, k :: 0 <= j < k < |s| ==> s[j] < s[k]
  }

  lemma {:induction false} DedupMembers(s: seq<nat>, x: nat)
    ensures x in Dedup(s) <==> x in s
    ensures s != [] ==> Dedup(s) != [] && Dedup(s)[|Dedup(s)| - 1] == s[|s| - 1]
  {
    if s != [] {
      DedupMembers(s[..|s| - 1], x);
      assert s == s[..|s| - 1] + [s[|s| - 1]];
    }
  }

  // In a sorted sequence this leaves every value once.
  lemma {:induction false} DedupIsAscending(s: seq<nat>)
    requires SortedBy(UpTo(), s)
    ensures Ascending(Dedup(s))
  {
    if s != [] {
      var front, last := s[..|s| - 1], s[|s| - 1];
      DedupIsAscending(front);
      var d := Dedup(front);
      forall k | 0 <= k < |d|
        ensures d[k] <= last
      {
        DedupMembers(front, d[k]);
        var i :| 0 <= i < |front| && front[i] == d[k];
        assert UpTo()(s[i], s[|s| - 1]);
      }
      DedupMembers(front, last);
    }
  }

  lemma HasMember(s: seq<nat>)
    ensures s != [] ==> exists x :: x in s
  {
    if s != [] {
      assert s[0] in s;
    }
  }

  // Ascending sequences of the same numbers are equal.
  lemma {:induction false} AscendingIsUnique(a: seq<nat>, b: seq<nat>)
    requires Ascending(a) && Ascending(b) && forall x :: x in a <==> x in b
    ensures a == b
  {
    HasMember(a);
    HasMember(b);
    if a != [] && b != [] {
      var x, y := a[|a| - 1], b[|b| - 1];
      assert x in b && y in a;
      var front, rest := a[..|a| - 1], b[..|b| - 1];
      forall z
        ensures z in front <==> z in rest
      {
        WithoutLast(a, z);
        WithoutLast(b, z);
      }
      AscendingIsUnique(front, rest);
    }
  }

  lemma WithoutLast(a: seq<nat>, z: nat)
    requires Ascending(a) && a != []
    ensures z in a[..|a| - 1] <==> z in a && z != a[|a| - 1]
  {
  }
}
