// Between nothing and one bit: what the mutual information of bits can be, for any function that obeys
// the laws of the binary logarithm.  The laws are stated without division by a logarithm: k is 1 / ln 2.
module InformationBounds {
  import opened Counting
  import opened MutualInformation

  ghost predicate IsLog2(lg: real -> real, k: real) {
    && k > 0.0 && lg(2.0) == 1.0
    && (forall x: real, y: real, z: real :: x > 0.0 && y > 0.0 && z == x * y ==> Additive(lg, x, y, z))
    && (forall x: real :: x > 0.0 ==> AboveTangent(lg, k, x))
  }

  ghost predicate Additive(lg: real -> real, x: real, y: real, product: real) {
    lg(product) == lg(x) + lg(y)
  }

  // The logarithm lies above k * (1 - 1 / x), and meets it at one only.
  ghost predicate AboveTangent(lg: real -> real, k: real, x: real)
    requires x > 0.0
  {
    && lg(x) >= k * (1.0 - 1.0 / x)
    && (x != 1.0 ==> lg(x) > k * (1.0 - 1.0 / x))
  }

  ghost predicate Binary(pairs: seq<Pair>) {
    forall i :: 0 <= i < |pairs| ==> pairs[i].expected <= 1 && pairs[i].decoded <= 1
  }

  lemma {:induction false} TableSum(pairs: seq<Pair>)
    ensures TableOf(pairs).Sum() <= |pairs| as real
    ensures Binary(pairs) ==> TableOf(pairs).Sum() == |pairs| as real
  {
    if pairs != [] {
      var last := |pairs| - 1;
      TableSum(pairs[..last]);
      TableStep(pairs, last);
      assert pairs[..last + 1] == pairs;
    }
  }

  // ---------- one cell, from below ----------

  // What the tangent makes of a cell, and whether the cell holds what independence predicts.
  ghost function Bound(k: real, x: real, row: real, col: real, n: real): real
    requires n > 0.0
  {
    k * ((x * n - row * col) / (n * n))
  }

  ghost predicate AsPredicted(x: real, row: real, col: real, n: real) {
    x * n == row * col
  }

  lemma QuotientTimes(a: real, b: real)
    requires b != 0.0
    ensures a / b * b == a
  {
  }

  lemma QuotientIs(a: real, b: real, q: real)
    requires b != 0.0 && q * b == a
    ensures a / b == q
  {
    QuotientTimes(a, b);
    assert (a / b - q) * b == 0.0;
  }

  // The inverse of the ratio of a cell.
  lemma InverseRatio(q: real, a: real, b: real)
    requires q > 0.0 && a > 0.0 && q * b == a
    ensures 1.0 / q * a == b
  {
    var w := 1.0 / q;
    assert w * (q * b) == (w * q) * b;
  }

  lemma ScaledTangent(l: real, k: real, w: real, p: real)
    requires p > 0.0
    ensures l >= k * (1.0 - w) ==> p * l >= k * (p - p * w)
    ensures l > k * (1.0 - w) ==> p * l > k * (p - p * w)
  {
    var d := l - k * (1.0 - w);
    assert p * l == p * d + p * (k * (1.0 - w));
    assert p * (k * (1.0 - w)) == k * (p - p * w);
    assert d >= 0.0 ==> p * d >= 0.0;
    assert d > 0.0 ==> p * d > 0.0;
  }

  lemma DifferenceOfShares(x: real, n: real, rc: real, w: real)
    requires n > 0.0 && w * (x * n) == rc
    ensures x / n - x / n * w == (x * n - rc) / (n * n)
  {
    var p := x / n;
    QuotientTimes(x, n);
    var nn := Square(n);
    assert p * nn == (p * n) * n;
    ScaledDifference(p, w, nn);
    assert w * (x * n) == w * (p * nn);
    QuotientIs(x * n - rc, nn, p - p * w);
  }

  lemma ScaledDifference(p: real, w: real, m: real)
    ensures (p - p * w) * m == p * m - w * (p * m)
  {
  }

  lemma Product(a: real, b: real) returns (p: real)
    requires a > 0.0 && b > 0.0
    ensures p == a * b && p > 0.0
  {
    p := a * b;
  }

  lemma Square(n: real) returns (nn: real)
    requires n > 0.0
    ensures nn == n * n && nn > 0.0
  {
    nn := Product(n, n);
  }

  lemma RatioIsOne(x: real, row: real, col: real, n: real)
    requires n > 0.0 && x > 0.0 && row > 0.0 && col > 0.0
    ensures Ratio(x, row, col, n) * (row * col) == x * n
    ensures Ratio(x, row, col, n) == 1.0 <==> AsPredicted(x, row, col, n)
  {
    Positive(row, col);
    QuotientTimes(x * n, row * col);
  }

  lemma ShareFromBelow(lg: real -> real, k: real, x: real, row: real, col: real, n: real)
    requires IsLog2(lg, k) && n > 0.0 && x > 0.0 && row > 0.0 && col > 0.0
    ensures Share(lg, x, row, col, n) >= Bound(k, x, row, col, n)
    ensures !AsPredicted(x, row, col, n) ==> Share(lg, x, row, col, n) > Bound(k, x, row, col, n)
  {
    hide Ratio, AsPredicted;
    var q := Ratio(x, row, col, n);
    assert AboveTangent(lg, k, q);
    RatioIsOne(x, row, col, n);
    Positive(x, n);
    InverseRatio(q, x * n, row * col);
    PositiveQuotient(x, n);
    ScaledTangent(lg(q), k, 1.0 / q, x / n);
    DifferenceOfShares(x, n, row * col, 1.0 / q);
  }

  lemma EmptyCell(k: real, row: real, col: real, n: real)
    requires k > 0.0 && row >= 0.0 && col >= 0.0 && n > 0.0
    ensures 0.0 >= Bound(k, 0.0, row, col, n)
    ensures !AsPredicted(0.0, row, col, n) ==> 0.0 > Bound(k, 0.0, row, col, n)
  {
    var p := row * col;
    var nn := Square(n);
    assert p >= 0.0;
    var q := (0.0 - p) / nn;
    QuotientTimes(0.0 - p, nn);
    assert q > 0.0 ==> q * nn > 0.0;
    assert p > 0.0 && q >= 0.0 ==> q * nn >= 0.0;
    assert q <= 0.0 ==> k * q <= 0.0;
    assert q < 0.0 ==> k * q < 0.0;
  }

  // A cell's term lies above its bound, strictly unless the cell is as independence predicts.
  lemma CellFromBelow(lg: real -> real, k: real, x: real, row: real, col: real, n: real)
    requires IsLog2(lg, k) && n > 0.0
    requires x >= 0.0 && row >= x && col >= x
    ensures Term(lg, x, row, col, n) >= Bound(k, x, row, col, n)
    ensures !AsPredicted(x, row, col, n) ==> Term(lg, x, row, col, n) > Bound(k, x, row, col, n)
  {
    hide Bound, AsPredicted, Share;
    if x > 0.0 {
      ShareFromBelow(lg, k, x, row, col, n);
    } else {
      EmptyCell(k, row, col, n);
    }
  }

  // ---------- never negative ----------

  ghost function BoundAt(k: real, t: Table, a: bit, b: bit, n: real): real
    requires n > 0.0
  {
    Bound(k, t.At(a, b), t.Row(a), t.Col(b), n)
  }

  ghost predicate PredictedAt(t: Table, a: bit, b: bit, n: real) {
    AsPredicted(t.At(a, b), t.Row(a), t.Col(b), n)
  }

  ghost function Slack(k: real, m: real, n: real): real
    requires n > 0.0
  {
    k * (m * (n - m) / (n * n))
  }

  lemma BoundsAddUp(k: real, t: Table, n: real)
    requires n > 0.0
    ensures BoundAt(k, t, 0, 0, n) + BoundAt(k, t, 0, 1, n) + BoundAt(k, t, 1, 0, n) + BoundAt(k, t, 1, 1, n)
         == Slack(k, t.Sum(), n)
  {
    hide Bound, Slack;
    BoundsSum(k, t.j00, t.j01, t.j10, t.j11, t.Row(0), t.Row(1), t.Col(0), t.Col(1), n);
  }

  lemma BoundsSum(k: real, a: real, b: real, c: real, d: real, r0: real, r1: real, c0: real, c1: real, n: real)
    requires n > 0.0 && r0 == a + b && r1 == c + d && c0 == a + c && c1 == b + d
    ensures Bound(k, a, r0, c0, n) + Bound(k, b, r0, c1, n) + Bound(k, c, r1, c0, n) + Bound(k, d, r1, c1, n)
         == Slack(k, a + b + c + d, n)
  {
    hide Bound, Slack, Part;
    var nn := Square(n);
    var m := a + b + c + d;
    var u := BoundIsPart(k, a, r0, c0, n, nn);
    var v := BoundIsPart(k, b, r0, c1, n, nn);
    var w := BoundIsPart(k, c, r1, c0, n, nn);
    var x := BoundIsPart(k, d, r1, c1, n, nn);
    FourParts(u, v, w, x, nn, k);
    SlackAddsUp(a, b, c, d, r0, r1, c0, c1, n);
    var slack := SlackIsPart(k, m, n, nn);
    assert u + v + w + x == slack;
  }

  ghost function Part(k: real, x: real, nn: real): real
    requires nn > 0.0
  {
    k * (x / nn)
  }

  lemma BoundIsPart(k: real, x: real, row: real, col: real, n: real, nn: real) returns (u: real)
    requires n > 0.0 && nn > 0.0 && nn == n * n
    ensures u == x * n - row * col && Bound(k, x, row, col, n) == Part(k, u, nn)
  {
    u := x * n - row * col;
  }

  lemma SlackIsPart(k: real, m: real, n: real, nn: real) returns (u: real)
    requires n > 0.0 && nn > 0.0 && nn == n * n
    ensures u == m * (n - m) && Slack(k, m, n) == Part(k, u, nn)
  {
    u := m * (n - m);
  }

  lemma SlackAddsUp(a: real, b: real, c: real, d: real, r0: real, r1: real, c0: real, c1: real, n: real)
    requires r0 + r1 == a + b + c + d == c0 + c1
    ensures a * n - r0 * c0 + (b * n - r0 * c1) + (c * n - r1 * c0) + (d * n - r1 * c1)
         == (a + b + c + d) * (n - (a + b + c + d))
  {
    var m := a + b + c + d;
    ProductOfSums(r0, r1, c0, c1);
    SumTimes(a, b, c, d, n);
    assert m * (n - m) == m * n - m * m;
  }

  lemma ProductOfSums(a: real, b: real, c: real, d: real)
    ensures (a + b) * (c + d) == a * c + a * d + b * c + b * d
  {
  }

  lemma SumTimes(a: real, b: real, c: real, d: real, n: real)
    ensures (a + b + c + d) * n == a * n + b * n + c * n + d * n
  {
  }

  lemma FourParts(a: real, b: real, c: real, d: real, n: real, k: real)
    requires n > 0.0
    ensures Part(k, a, n) + Part(k, b, n) + Part(k, c, n) + Part(k, d, n) == Part(k, a + b + c + d, n)
  {
    assert a / n + b / n + c / n + d / n == (a + b + c + d) / n;
    SumTimes(a / n, b / n, c / n, d / n, k);
  }

  lemma RawFromBelow(lg: real -> real, k: real, t: Table, n: real)
    requires IsLog2(lg, k) && n > 0.0 && t.Valid()
    ensures RawInformation(lg, t, n) >= Slack(k, t.Sum(), n)
    ensures !PredictedAt(t, 0, 0, n) ==> RawInformation(lg, t, n) > Slack(k, t.Sum(), n)
  {
    hide Bound, AsPredicted, Share, Slack;
    CellFromBelow(lg, k, t.j00, t.Row(0), t.Col(0), n);
    CellFromBelow(lg, k, t.j01, t.Row(0), t.Col(1), n);
    CellFromBelow(lg, k, t.j10, t.Row(1), t.Col(0), n);
    CellFromBelow(lg, k, t.j11, t.Row(1), t.Col(1), n);
    BoundsAddUp(k, t, n);
  }

  lemma SlackIsNonNegative(k: real, m: real, n: real)
    requires k > 0.0 && 0.0 <= m <= n && n > 0.0
    ensures Slack(k, m, n) >= 0.0
    ensures m == n ==> Slack(k, m, n) == 0.0
  {
    var p := m * (n - m);
    var nn := Square(n);
    assert p >= 0.0;
    var q := p / nn;
    QuotientTimes(p, nn);
    assert q < 0.0 ==> q * nn < 0.0;
    assert q >= 0.0 ==> k * q >= 0.0;
    if m == n {
      assert p == 0.0;
    }
  }

  // The sum is never negative, so the final clamp at zero changes nothing in exact arithmetic.
  lemma ClampIsIdle(lg: real -> real, k: real, pairs: seq<Pair>)
    requires IsLog2(lg, k) && pairs != []
    ensures RawInformation(lg, TableOf(pairs), |pairs| as real) >= 0.0
    ensures Information(lg, pairs) == RawInformation(lg, TableOf(pairs), |pairs| as real)
  {
    hide Share, Slack, AsPredicted;
    var t, n := TableOf(pairs), |pairs| as real;
    TableSum(pairs);
    RawFromBelow(lg, k, t, n);
    SlackIsNonNegative(k, t.Sum(), n);
  }

  // ---------- zero means independent ----------

  lemma LogOfProduct(lg: real -> real, k: real, x: real, y: real, product: real)
    requires IsLog2(lg, k) && x > 0.0 && y > 0.0 && product == x * y
    ensures lg(product) == lg(x) + lg(y)
  {
    assert Additive(lg, x, y, product);
  }

  lemma LogOfOne(lg: real -> real, k: real)
    requires IsLog2(lg, k)
    ensures lg(1.0) == 0.0
  {
    LogOfProduct(lg, k, 1.0, 1.0, 1.0);
  }

  lemma PredictedCell(lg: real -> real, k: real, x: real, row: real, col: real, n: real)
    requires IsLog2(lg, k) && n > 0.0
    requires x >= 0.0 && row >= x && col >= x && AsPredicted(x, row, col, n)
    ensures Term(lg, x, row, col, n) == 0.0
  {
    hide Ratio, AsPredicted;
    LogOfOne(lg, k);
    if x > 0.0 {
      RatioIsOne(x, row, col, n);
      assert lg(Ratio(x, row, col, n)) == 0.0;
    }
  }

  ghost predicate Independent(t: Table) {
    t.j00 * t.j11 == t.j01 * t.j10
  }

  lemma PredictionIsIndependence(t: Table, n: real)
    requires n == t.Sum()
    ensures Independent(t) <==> PredictedAt(t, 0, 0, n)
    ensures Independent(t) ==> PredictedAt(t, 0, 1, n) && PredictedAt(t, 1, 0, n) && PredictedAt(t, 1, 1, n)
  {
    Determinant(t.j00, t.j01, t.j10, t.j11);
    Determinant(t.j01, t.j00, t.j11, t.j10);
    Determinant(t.j10, t.j11, t.j00, t.j01);
    Determinant(t.j11, t.j10, t.j01, t.j00);
  }

  lemma Determinant(x: real, y: real, z: real, w: real)
    ensures x * (x + y + z + w) - (x + y) * (x + z) == x * w - y * z
  {
  }

  // Decoding carries no information exactly when expected and decoded bits are independent.
  lemma NothingIffIndependent(lg: real -> real, k: real, pairs: seq<Pair>)
    requires IsLog2(lg, k) && pairs != [] && Binary(pairs)
    ensures Information(lg, pairs) == 0.0 <==> Independent(TableOf(pairs))
  {
    hide Share, Slack, AsPredicted, Independent;
    var t, n := TableOf(pairs), |pairs| as real;
    TableSum(pairs);
    ClampIsIdle(lg, k, pairs);
    PredictionIsIndependence(t, n);
    SlackIsNonNegative(k, t.Sum(), n);
    RawFromBelow(lg, k, t, n);
    if Independent(t) {
      PredictedCell(lg, k, t.j00, t.Row(0), t.Col(0), n);
      PredictedCell(lg, k, t.j01, t.Row(0), t.Col(1), n);
      PredictedCell(lg, k, t.j10, t.Row(1), t.Col(0), n);
      PredictedCell(lg, k, t.j11, t.Row(1), t.Col(1), n);
    }
  }

  // A variable that never changes tells nothing.
  lemma ConstantTellsNothing(lg: real -> real, k: real, pairs: seq<Pair>, c: nat)
    requires IsLog2(lg, k) && Binary(pairs)
    requires (forall i :: 0 <= i < |pairs| ==> pairs[i].expected == c)
          || (forall i :: 0 <= i < |pairs| ==> pairs[i].decoded == c)
    ensures Information(lg, pairs) == 0.0
  {
    if pairs != [] {
      ConstantTable(pairs, c);
      NothingIffIndependent(lg, k, pairs);
    }
  }

  lemma {:induction false} ConstantTable(pairs: seq<Pair>, c: nat)
    ensures (forall i :: 0 <= i < |pairs| ==> pairs[i].expected == c) ==>
              (c != 0 ==> TableOf(pairs).Row(0) == 0.0) && (c != 1 ==> TableOf(pairs).Row(1) == 0.0)
    ensures (forall i :: 0 <= i < |pairs| ==> pairs[i].decoded == c) ==>
              (c != 0 ==> TableOf(pairs).Col(0) == 0.0) && (c != 1 ==> TableOf(pairs).Col(1) == 0.0)
  {
    if pairs != [] {
      var last := |pairs| - 1;
      ConstantTable(pairs[..last], c);
      TableStep(pairs, last);
      assert pairs[..last + 1] == pairs;
    }
  }

  // ---------- the entropies ----------

  // x lg x, and nothing for an empty count.
  ghost function XLog(lg: real -> real, x: real): real {
    if x > 0.0 then x * lg(x) else 0.0
  }

  ghost function Scaled(x: real, l: real): real { x * l }

  lemma LogOfCell(lg: real -> real, k: real, x: real, row: real, col: real, n: real)
    requires IsLog2(lg, k) && n > 0.0 && x > 0.0 && row > 0.0 && col > 0.0
    ensures lg(Ratio(x, row, col, n)) == lg(x) + lg(n) - lg(row) - lg(col)
  {
    hide Ratio;
    var q := Ratio(x, row, col, n);
    RatioIsOne(x, row, col, n);
    Positive(row, col);
    Positive(x, n);
    LogOfProduct(lg, k, q, row * col, x * n);
    LogOfProduct(lg, k, row, col, row * col);
    LogOfProduct(lg, k, x, n, x * n);
  }

  lemma CellEntropy(lg: real -> real, k: real, x: real, row: real, col: real, n: real)
    requires IsLog2(lg, k) && n > 0.0 && 0.0 <= x && x <= row && x <= col
    ensures Term(lg, x, row, col, n) * n
         == XLog(lg, x) + Scaled(x, lg(n)) - Scaled(x, lg(row)) - Scaled(x, lg(col))
  {
    hide Ratio, IsLog2;
    if x > 0.0 {
      LogOfCell(lg, k, x, row, col, n);
      ShareTimes(x, n, lg(Ratio(x, row, col, n)));
      FourTerms(x, lg(x), lg(n), lg(row), lg(col));
    }
  }

  lemma ShareTimes(x: real, n: real, l: real)
    requires n > 0.0
    ensures x / n * l * n == x * l
  {
    QuotientTimes(x, n);
    assert x / n * l * n == (x / n * n) * l;
  }

  lemma FourTerms(x: real, a: real, b: real, c: real, d: real)
    ensures x * (a + b - c - d) == x * a + x * b - x * c - x * d
  {
  }

  lemma MarginLog(lg: real -> real, x: real, y: real, margin: real)
    requires x >= 0.0 && y >= 0.0 && margin == x + y
    ensures Scaled(x, lg(margin)) + Scaled(y, lg(margin)) == XLog(lg, margin)
  {
    assert (x + y) * lg(margin) == x * lg(margin) + y * lg(margin);
  }

  // The information is what the two variables have in common: the entropy of each one on its own, less the
  // entropy of both together (all three times the number of pairs).
  lemma InformationIsSharedEntropy(lg: real -> real, k: real, pairs: seq<Pair>)
    requires IsLog2(lg, k) && pairs != [] && Binary(pairs)
    ensures var t, n := TableOf(pairs), |pairs| as real;
            var expected := XLog(lg, n) - XLog(lg, t.Row(0)) - XLog(lg, t.Row(1));
            var decoded := XLog(lg, n) - XLog(lg, t.Col(0)) - XLog(lg, t.Col(1));
            var both := XLog(lg, n) - XLog(lg, t.j00) - XLog(lg, t.j01) - XLog(lg, t.j10) - XLog(lg, t.j11);
            Information(lg, pairs) * n == expected + decoded - both
  {
    hide Share, IsLog2, XLog, Scaled, Term, TableOf;
    var t, n := TableOf(pairs), |pairs| as real;
    ClampIsIdle(lg, k, pairs);
    TableSum(pairs);
    CellEntropy(lg, k, t.j00, t.Row(0), t.Col(0), n);
    CellEntropy(lg, k, t.j01, t.Row(0), t.Col(1), n);
    CellEntropy(lg, k, t.j10, t.Row(1), t.Col(0), n);
    CellEntropy(lg, k, t.j11, t.Row(1), t.Col(1), n);
    MarginLog(lg, t.j00, t.j01, t.Row(0));
    MarginLog(lg, t.j10, t.j11, t.Row(1));
    MarginLog(lg, t.j00, t.j10, t.Col(0));
    MarginLog(lg, t.j01, t.j11, t.Col(1));
    LastMargin(lg, t, n);
    SumTimes(CellTerm(lg, t, 0, 0, n), CellTerm(lg, t, 0, 1, n), CellTerm(lg, t, 1, 0, n), CellTerm(lg, t, 1, 1, n), n);
  }

  lemma LastMargin(lg: real -> real, t: Table, n: real)
    requires t.Valid() && n == t.Sum() && n > 0.0
    ensures Scaled(t.j00, lg(n)) + Scaled(t.j01, lg(n)) + Scaled(t.j10, lg(n)) + Scaled(t.j11, lg(n)) == XLog(lg, n)
  {
    SumTimes(t.j00, t.j01, t.j10, t.j11, lg(n));
  }

  // ---------- at most one bit ----------

  lemma Inverse(y: real) returns (w: real)
    requires y > 0.0
    ensures w > 0.0 && w * y == 1.0 && 1.0 / w == y
  {
    w := 1.0 / y;
    PositiveQuotient(1.0, y);
    QuotientTimes(1.0, y);
    assert y * w == 1.0;
    QuotientIs(1.0, w, y);
  }

  lemma BelowTangent(lg: real -> real, k: real, y: real)
    requires IsLog2(lg, k) && y > 0.0
    ensures lg(y) <= k * (y - 1.0)
  {
    var w := Inverse(y);
    LogOfOne(lg, k);
    LogOfProduct(lg, k, w, y, 1.0);
    assert lg(w) >= k * (1.0 - y) by { assert AboveTangent(lg, k, w); }
    Opposite(k, y);
  }

  lemma Opposite(k: real, y: real)
    ensures k * (1.0 - y) == -(k * (y - 1.0))
  {
  }

  lemma LogOfRatio(lg: real -> real, k: real, q: real)
    requires IsLog2(lg, k) && q > 0.0
    ensures lg(q) <= 1.0 + k * (q / 2.0 - 1.0)
  {
    LogOfProduct(lg, k, 2.0, q / 2.0, q);
    BelowTangent(lg, k, q / 2.0);
  }

  // A cell is at most as much likelier than predicted as its row allows.
  lemma RatioBelowRow(q: real, x: real, row: real, col: real, n: real, h: real)
    requires 0.0 < x <= col && row > 0.0 && q > 0.0
    requires q * (row * col) == x * n && h * row == n
    ensures q <= h
  {
    var d := q - h;
    assert d * row * x == q * row * x - (h * row) * x;
    assert q * (row * col) == q * row * col;
    Positive(q, row);
    assert q * row * x <= q * row * col;
    if d > 0.0 {
      Positive(d, row);
      Positive(d * row, x);
    }
  }

  // Caps on a scaled cell and on a scaled row.
  ghost function CellCap(k: real, x: real, h: real): real { x + k * (x * (h / 2.0) - x) }

  ghost function RowCap(k: real, row: real, n: real): real { row + k * (n / 2.0 - row) }

  ghost predicate Capped(u: real, n: real, cap: real) { u * n <= cap }

  lemma ScaledUpper(x: real, l: real, k: real, q: real, h: real, u: real, n: real)
    requires x > 0.0 && k > 0.0 && n > 0.0
    requires q <= h && l <= 1.0 + k * (q / 2.0 - 1.0) && u == x / n * l
    ensures Capped(u, n, CellCap(k, x, h))
  {
    assert k * (q / 2.0 - 1.0) <= k * (h / 2.0 - 1.0);
    var d := 1.0 + k * (h / 2.0 - 1.0) - l;
    assert x * d >= 0.0;
    assert x * (k * (h / 2.0 - 1.0)) == k * (x * (h / 2.0) - x);
    QuotientTimes(x, n);
    assert u * n == (x / n * n) * l;
  }

  lemma CellFromAbove(lg: real -> real, k: real, x: real, row: real, col: real, n: real, h: real)
    requires IsLog2(lg, k) && n > 0.0 && 0.0 <= x <= row && x <= col && row > 0.0 && h * row == n
    ensures Capped(Term(lg, x, row, col, n), n, CellCap(k, x, h))
  {
    hide Share;
    if x > 0.0 {
      ShareFromAbove(lg, k, x, row, col, n, h);
    }
  }

  lemma ShareFromAbove(lg: real -> real, k: real, x: real, row: real, col: real, n: real, h: real)
    requires IsLog2(lg, k) && n > 0.0 && 0.0 < x <= col && row > 0.0 && h * row == n
    ensures Capped(Share(lg, x, row, col, n), n, CellCap(k, x, h))
  {
    hide Ratio, AsPredicted, Capped, CellCap;
    var q := Ratio(x, row, col, n);
    RatioIsOne(x, row, col, n);
    RatioBelowRow(q, x, row, col, n, h);
    LogOfRatio(lg, k, q);
    ScaledUpper(x, lg(q), k, q, h, Share(lg, x, row, col, n), n);
  }

  lemma RowFromAbove(lg: real -> real, k: real, t: Table, a: bit, n: real)
    requires IsLog2(lg, k) && n > 0.0 && t.Valid()
    ensures Capped(CellTerm(lg, t, a, 0, n) + CellTerm(lg, t, a, 1, n), n, RowCap(k, t.Row(a), n))
  {
    hide Share, Capped, CellCap, RowCap;
    var x, y, row := t.At(a, 0), t.At(a, 1), t.Row(a);
    if row > 0.0 {
      var h := n / row;
      QuotientTimes(n, row);
      CellFromAbove(lg, k, x, row, t.Col(0), n, h);
      CellFromAbove(lg, k, y, row, t.Col(1), n, h);
      CapsOfRow(CellTerm(lg, t, a, 0, n), CellTerm(lg, t, a, 1, n), k, x, y, h, n);
    } else {
      EmptyRow(k, n);
    }
  }

  lemma EmptyRow(k: real, n: real)
    requires k > 0.0 && n > 0.0
    ensures Capped(0.0, n, RowCap(k, 0.0, n))
  {
    assert k * (n / 2.0) >= 0.0;
  }

  lemma CapsOfRow(u: real, v: real, k: real, x: real, y: real, h: real, n: real)
    requires h * (x + y) == n
    requires Capped(u, n, CellCap(k, x, h)) && Capped(v, n, CellCap(k, y, h))
    ensures Capped(u + v, n, RowCap(k, x + y, n))
  {
    assert x * (h / 2.0) + y * (h / 2.0) == n / 2.0;
  }

  // However well decoding works, a bit is never worth more than a bit.
  lemma AtMostOneBit(lg: real -> real, k: real, pairs: seq<Pair>)
    requires IsLog2(lg, k) && Binary(pairs)
    ensures 0.0 <= Information(lg, pairs) <= 1.0
  {
    hide Share, Capped, RowCap;
    if pairs != [] {
      var t, n := TableOf(pairs), |pairs| as real;
      TableSum(pairs);
      ClampIsIdle(lg, k, pairs);
      RowFromAbove(lg, k, t, 0, n);
      RowFromAbove(lg, k, t, 1, n);
      CapsAddUp(CellTerm(lg, t, 0, 0, n) + CellTerm(lg, t, 0, 1, n), CellTerm(lg, t, 1, 0, n) + CellTerm(lg, t, 1, 1, n),
                t.Row(0), t.Row(1), k, n);
    }
  }

  lemma CapsAddUp(u: real, v: real, r: real, s: real, k: real, n: real)
    requires n > 0.0 && r + s == n
    requires Capped(u, n, RowCap(k, r, n)) && Capped(v, n, RowCap(k, s, n))
    ensures u + v <= 1.0
  {
    assert k * (n / 2.0 - r) + k * (n / 2.0 - s) == 0.0;
    assert (u + v - 1.0) * n <= 0.0;
    if u + v > 1.0 {
      Positive(u + v - 1.0, n);
    }
  }

  // Error-free and always-wrong decoding of balanced bits are worth exactly one bit.
  lemma PerfectIsOneBit(lg: real -> real, k: real, pairs: seq<Pair>)
    requires IsLog2(lg, k) && Binary(pairs) && pairs != []
    requires var t := TableOf(pairs);
             || (t.j01 == 0.0 == t.j10 && t.j00 == t.j11)
             || (t.j00 == 0.0 == t.j11 && t.j01 == t.j10)
    ensures Information(lg, pairs) == 1.0
  {
    hide Share;
    var t, n := TableOf(pairs), |pairs| as real;
    TableSum(pairs);
    HalfABit(lg, k, if t.j01 == 0.0 then t.j00 else t.j01, n);
  }

  lemma HalfABit(lg: real -> real, k: real, x: real, n: real)
    requires IsLog2(lg, k) && n > 0.0 && n == 2.0 * x
    ensures Share(lg, x, x, x, n) == 0.5
  {
    hide Ratio, AsPredicted;
    var q := Ratio(x, x, x, n);
    RatioIsOne(x, x, x, n);
    var xx := Square(x);
    assert q * xx == x * n == 2.0 * xx;
    QuotientIs(q * xx, xx, q);
    QuotientIs(2.0 * xx, xx, 2.0);
    assert x / n == 0.5;
  }
}
