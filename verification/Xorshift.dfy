// The 64-bit xorshift generator behind the benchmark's shuffles.
module Xorshift {
  function Xor(a: bv64, b: bv64): bv64 { a ^ b }

  function Up13(a: bv64): bv64 { a << 13 }

  function Down7(a: bv64): bv64 { a >> 7 }

  function Up17(a: bv64): bv64 { a << 17 }

  function Left13(s: bv64): bv64 { Xor(s, Up13(s)) }

  function Right7(s: bv64): bv64 { Xor(s, Down7(s)) }

  function Left17(s: bv64): bv64 { Xor(s, Up17(s)) }

  function Next(s: bv64): bv64 { Left17(Right7(Left13(s))) }

  lemma Left13OfNonzero(s: bv64)
    ensures Left13(s) == 0 <==> s == 0
  {
  }

  lemma Right7OfNonzero(s: bv64)
    ensures Right7(s) == 0 <==> s == 0
  {
  }

  lemma Left17OfNonzero(s: bv64)
    ensures Left17(s) == 0 <==> s == 0
  {
  }

  lemma NextOfNonzero(s: bv64)
    ensures Next(s) == 0 <==> s == 0
  {
    Left13OfNonzero(s);
    Right7OfNonzero(Left13(s));
    Left17OfNonzero(Right7(Left13(s)));
  }

  function Raised(seed: bv64): bv64 { if seed < 1 then 1 else seed }

  // The start state: the seed, raised to at least one, mixed with a fixed salt.
  function Start(seed: bv64, salt: bv64): bv64 { Raised(seed) ^ salt }

  function After(s: bv64, n: nat): bv64 {
    if n == 0 then s else Next(After(s, n - 1))
  }

  const CLIENT_PLAN_SALT: bv64 := 0x6361_6c69_6272_6174
  const LAB_PLAN_SALT: bv64 := 0x7365_7175_656e_7469
  const PERMUTATION_SALT: bv64 := 0x7065_726d_7574_6521

  lemma {:induction false} ZeroIsAbsorbing(s: bv64, n: nat)
    ensures After(s, n) == 0 <==> s == 0
  {
    if n > 0 {
      ZeroIsAbsorbing(s, n - 1);
      NextOfNonzero(After(s, n - 1));
    }
  }

  lemma {:induction false} AfterSum(s: bv64, m: nat, n: nat)
    ensures After(After(s, m), n) == After(s, m + n)
  {
    hide Next;
    if n > 0 {
      AfterSum(s, m, n - 1);
    }
  }

  // Raising the seed to one does not keep the start state away from zero: the salt does it in for
  // exactly one seed, and from then on every state is zero.  For all other seeds none is.
  lemma DegenerateSeed(seed: bv64, salt: bv64, n: nat)
    requires salt > 1
    ensures After(Start(seed, salt), n) == 0 <==> seed == salt
  {
    ZeroIsAbsorbing(Start(seed, salt), n);
    StartIsZero(seed, salt);
  }

  lemma StartIsZero(seed: bv64, salt: bv64)
    requires salt > 1
    ensures Start(seed, salt) == 0 <==> seed == salt
  {
    XorIsZero(Raised(seed), salt, Start(seed, salt));
    RaisedIs(seed, salt, Raised(seed));
  }

  lemma XorIsZero(a: bv64, b: bv64, x: bv64)
    requires x == a ^ b
    ensures x == 0 <==> a == b
  {
  }

  lemma RaisedIs(seed: bv64, salt: bv64, raised: bv64)
    requires salt > 1 && raised == if seed < 1 then 1 else seed
    ensures raised == salt <==> seed == salt
  {
  }

  function Reduced(s: bv64, upper: nat): (i: nat)
    requires upper > 0
    ensures i < upper
  {
    Remainder(s as nat, upper)
  }

  function Remainder(n: nat, k: nat): (r: nat)
    requires k > 0
    ensures r < k
  {
    n % k
  }

  class Generator {
    var state: bv64

    constructor (seed: bv64, salt: bv64)
      ensures state == Start(seed, salt)
    {
      state := Raised(seed) ^ salt;
    }

    // `random_index`.
    method Index(upper: nat) returns (i: nat)
      requires upper > 0
      modifies this
      ensures state == Next(old(state))
      ensures i == Pick(old(state), upper) && i < upper
      ensures i == state as nat % upper
    {
      state := Left13(state);
      state := Right7(state);
      state := Left17(state);
      i := Reduced(state, upper);
    }
  }

  // What a draw is: the remainder of the stepped state.
  lemma PickIsRemainder(s: bv64, upper: nat)
    requires upper > 0
    ensures Pick(s, upper) == Next(s) as nat % upper
  {
  }

  // Known answers of the step.
  lemma NextOfKnownStates()
    ensures Next(1) == 0x0000_0000_4082_2041
    ensures Next(0x8000_0000_0000_0000) == 0x8100_0000_0000_0000
    ensures Next(0x0123_4567_89ab_cdef) == 0x3f28_00d6_569e_01b4
  {
  }

  // The index drawn from a state.
  function Pick(s: bv64, upper: nat): (i: nat)
    requires upper > 0
    ensures i < upper
  {
    Reduced(Next(s), upper)
  }
}
