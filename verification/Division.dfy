// Integer arithmetic: mostly facts about division by a variable that the solver does not find by itself.
module Division {
  lemma QuotientStep(a: int, k: int)
    requires k > 0
    ensures (a - k) / k == a / k - 1
  {
    assert a == (a / k) * k + a % k;
    assert a - k == (a / k - 1) * k + a % k;
    QuotientUnique(a - k, k, a / k - 1, a % k);
  }

  lemma QuotientUnique(a: int, k: int, q: int, r: int)
    requires k > 0 && a == q * k + r && 0 <= r < k
    ensures a / k == q
  {
    var d := a / k - q;
    assert d * k == r - a % k;
    SignOfProduct(d, k);
  }

  lemma SignOfProduct(d: int, k: int)
    requires k > 0
    ensures d >= 1 ==> d * k >= k
    ensures d <= -1 ==> d * k <= -k
  {
  }

  lemma QuotientMonotone(a: int, b: int, k: int)
    requires k > 0 && a <= b
    ensures a / k <= b / k
  {
    var d := a / k - b / k;
    assert d * k == (a - a % k) - (b - b % k);
    SignOfProduct(d, k);
  }

  lemma RowAbove(q: int, k: int)
    ensures q * k == (q - 1) * k + k
  {
  }

  lemma RemainderUnique(a: int, k: int, q: int, r: int)
    requires k > 0 && a == q * k + r && 0 <= r < k
    ensures a % k == r
  {
    QuotientUnique(a, k, q, r);
  }

  lemma NextCycle(n: nat, k: nat)
    requires k > 0
    ensures (n + k) % k == n % k
  {
    assert n == n / k * k + n % k;
    RowAbove(n / k + 1, k);
    RemainderUnique(n + k, k, n / k + 1, n % k);
  }

  function Least(a: nat, b: nat): nat { if a < b then a else b }
}
