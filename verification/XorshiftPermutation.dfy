// The generator's step is a permutation of the 64-bit words: no two states are merged, none is out of
// reach, and so every index is drawn from some state.
module XorshiftPermutation {
  import opened Xorshift

  lemma XorLaws(a: bv64, b: bv64, c: bv64)
    ensures Xor(Xor(a, b), Xor(b, c)) == Xor(a, c) && Xor(a, 0) == a
  {
  }

  // ---------- the left shifts by 13 and 17, the right shift by 7, and their doubles ----------

  function Up26(a: bv64): bv64 { a << 26 }
  function Up52(a: bv64): bv64 { a << 52 }
  function Up34(a: bv64): bv64 { a << 34 }
  function Down14(a: bv64): bv64 { a >> 14 }
  function Down28(a: bv64): bv64 { a >> 28 }
  function Down56(a: bv64): bv64 { a >> 56 }

  lemma Up13OfXor(a: bv64, b: bv64)
    ensures Up13(Xor(a, b)) == Xor(Up13(a), Up13(b))
  {
  }

  lemma Up26OfXor(a: bv64, b: bv64)
    ensures Up26(Xor(a, b)) == Xor(Up26(a), Up26(b))
  {
  }

  lemma Up52OfXor(a: bv64, b: bv64)
    ensures Up52(Xor(a, b)) == Xor(Up52(a), Up52(b))
  {
  }

  lemma Up13Twice(a: bv64)
    ensures Up13(Up13(a)) == Up26(a)
  {
  }

  lemma Up26Twice(a: bv64)
    ensures Up26(Up26(a)) == Up52(a)
  {
  }

  lemma Up52Twice(a: bv64)
    ensures Up52(Up52(a)) == 0
  {
  }

  function Left26(s: bv64): bv64 { Xor(s, Up26(s)) }

  function Left52(s: bv64): bv64 { Xor(s, Up52(s)) }

  lemma Left13Twice(s: bv64)
    ensures Left13(Left13(s)) == Left26(s)
  {
    hide Xor, Up13, Up26;
    Up13OfXor(s, Up13(s));
    Up13Twice(s);
    XorLaws(s, Up13(s), Up26(s));
  }

  lemma Left26Twice(s: bv64)
    ensures Left26(Left26(s)) == Left52(s)
  {
    hide Xor, Up26, Up52;
    Up26OfXor(s, Up26(s));
    Up26Twice(s);
    XorLaws(s, Up26(s), Up52(s));
  }

  lemma Left52Twice(s: bv64)
    ensures Left52(Left52(s)) == s
  {
    hide Xor, Up52;
    Up52OfXor(s, Up52(s));
    Up52Twice(s);
    XorLaws(s, Up52(s), 0);
  }

  lemma Left13IsOnto(t: bv64) returns (s: bv64)
    ensures Left13(s) == t
  {
    hide Left13, Left26, Left52;
    s := Left13(Left26(Left52(t)));
    Left13Twice(Left26(Left52(t)));
    Left26Twice(Left52(t));
    Left52Twice(t);
  }

  lemma Left13IsOneToOne(s: bv64, t: bv64)
    requires Left13(s) == Left13(t)
    ensures s == t
  {
    hide Left13, Left26, Left52;
    Left13Twice(s);
    Left13Twice(t);
    Left26Twice(s);
    Left26Twice(t);
    Left52Twice(s);
    Left52Twice(t);
  }

  lemma Up17OfXor(a: bv64, b: bv64)
    ensures Up17(Xor(a, b)) == Xor(Up17(a), Up17(b))
  {
  }

  lemma Up34OfXor(a: bv64, b: bv64)
    ensures Up34(Xor(a, b)) == Xor(Up34(a), Up34(b))
  {
  }

  lemma Up17Twice(a: bv64)
    ensures Up17(Up17(a)) == Up34(a)
  {
  }

  lemma Up34Twice(a: bv64)
    ensures Up34(Up34(a)) == 0
  {
  }

  function Left34(s: bv64): bv64 { Xor(s, Up34(s)) }

  lemma Left17Twice(s: bv64)
    ensures Left17(Left17(s)) == Left34(s)
  {
    hide Xor, Up17, Up34;
    Up17OfXor(s, Up17(s));
    Up17Twice(s);
    XorLaws(s, Up17(s), Up34(s));
  }

  lemma Left34Twice(s: bv64)
    ensures Left34(Left34(s)) == s
  {
    hide Xor, Up34;
    Up34OfXor(s, Up34(s));
    Up34Twice(s);
    XorLaws(s, Up34(s), 0);
  }

  lemma Left17IsOnto(t: bv64) returns (s: bv64)
    ensures Left17(s) == t
  {
    hide Left17, Left34;
    s := Left17(Left34(t));
    Left17Twice(Left34(t));
    Left34Twice(t);
  }

  lemma Left17IsOneToOne(s: bv64, t: bv64)
    requires Left17(s) == Left17(t)
    ensures s == t
  {
    hide Left17, Left34;
    Left17Twice(s);
    Left17Twice(t);
    Left34Twice(s);
    Left34Twice(t);
  }

  lemma Down7OfXor(a: bv64, b: bv64)
    ensures Down7(Xor(a, b)) == Xor(Down7(a), Down7(b))
  {
  }

  lemma Down14OfXor(a: bv64, b: bv64)
    ensures Down14(Xor(a, b)) == Xor(Down14(a), Down14(b))
  {
  }

  lemma Down28OfXor(a: bv64, b: bv64)
    ensures Down28(Xor(a, b)) == Xor(Down28(a), Down28(b))
  {
  }

  lemma Down56OfXor(a: bv64, b: bv64)
    ensures Down56(Xor(a, b)) == Xor(Down56(a), Down56(b))
  {
  }

  lemma Down7Twice(a: bv64)
    ensures Down7(Down7(a)) == Down14(a)
  {
  }

  lemma Down14Twice(a: bv64)
    ensures Down14(Down14(a)) == Down28(a)
  {
  }

  lemma Down28Twice(a: bv64)
    ensures Down28(Down28(a)) == Down56(a)
  {
  }

  lemma Down56Twice(a: bv64)
    ensures Down56(Down56(a)) == 0
  {
  }

  function Right14(s: bv64): bv64 { Xor(s, Down14(s)) }

  function Right28(s: bv64): bv64 { Xor(s, Down28(s)) }

  function Right56(s: bv64): bv64 { Xor(s, Down56(s)) }

  lemma Right7Twice(s: bv64)
    ensures Right7(Right7(s)) == Right14(s)
  {
    hide Xor, Down7, Down14;
    Down7OfXor(s, Down7(s));
    Down7Twice(s);
    XorLaws(s, Down7(s), Down14(s));
  }

  lemma Right14Twice(s: bv64)
    ensures Right14(Right14(s)) == Right28(s)
  {
    hide Xor, Down14, Down28;
    Down14OfXor(s, Down14(s));
    Down14Twice(s);
    XorLaws(s, Down14(s), Down28(s));
  }

  lemma Right28Twice(s: bv64)
    ensures Right28(Right28(s)) == Right56(s)
  {
    hide Xor, Down28, Down56;
    Down28OfXor(s, Down28(s));
    Down28Twice(s);
    XorLaws(s, Down28(s), Down56(s));
  }

  lemma Right56Twice(s: bv64)
    ensures Right56(Right56(s)) == s
  {
    hide Xor, Down56;
    Down56OfXor(s, Down56(s));
    Down56Twice(s);
    XorLaws(s, Down56(s), 0);
  }

  lemma Right7IsOnto(t: bv64) returns (s: bv64)
    ensures Right7(s) == t
  {
    hide Right7, Right14, Right28, Right56;
    s := Right7(Right14(Right28(Right56(t))));
    Right7Twice(Right14(Right28(Right56(t))));
    Right14Twice(Right28(Right56(t)));
    Right28Twice(Right56(t));
    Right56Twice(t);
  }

  lemma Right7IsOneToOne(s: bv64, t: bv64)
    requires Right7(s) == Right7(t)
    ensures s == t
  {
    hide Right7, Right14, Right28, Right56;
    Right7Twice(s);
    Right7Twice(t);
    Right14Twice(s);
    Right14Twice(t);
    Right28Twice(s);
    Right28Twice(t);
    Right56Twice(s);
    Right56Twice(t);
  }

  // ---------- the step ----------

  lemma NextIsOnto(t: bv64) returns (s: bv64)
    ensures Next(s) == t
  {
    hide Left13, Right7, Left17;
    var u := Left17IsOnto(t);
    var v := Right7IsOnto(u);
    s := Left13IsOnto(v);
  }

  lemma NextIsOneToOne(s: bv64, t: bv64)
    requires Next(s) == Next(t)
    ensures s == t
  {
    hide Left13, Right7, Left17;
    Left17IsOneToOne(Right7(Left13(s)), Right7(Left13(t)));
    Right7IsOneToOne(Left13(s), Left13(t));
    Left13IsOneToOne(s, t);
  }

  lemma {:induction false} AfterIsOneToOne(s: bv64, t: bv64, n: nat)
    requires After(s, n) == After(t, n)
    ensures s == t
  {
    hide Next;
    if n > 0 {
      NextIsOneToOne(After(s, n - 1), After(t, n - 1));
      AfterIsOneToOne(s, t, n - 1);
    }
  }

  // Every index that a 64-bit word can name is drawn from some state.
  lemma EveryIndexIsDrawn(index: bv64, upper: nat) returns (s: bv64)
    requires index as nat < upper
    ensures Next(s) as nat % upper == index as nat
  {
    hide Next;
    s := NextIsOnto(index);
    SmallRemainder(index as nat, upper);
  }

  lemma SmallRemainder(n: nat, k: nat)
    requires n < k
    ensures n % k == n
  {
  }
}
