// Mutual information of expected and decoded bits, from their 2x2 contingency table.  Rates are exact
// reals, and the logarithm is a parameter.
module MutualInformation {
  import opened Counting

  datatype Pair = Pair(expected: nat, decoded: nat)

  // The four counts, kept as reals like in the source.
  datatype Table = Table(j00: real, j01: real, j10: real, j11: real) {
    predicate Valid() {
      j00 >= 0.0 && j01 >= 0.0 && j10 >= 0.0 && j11 >= 0.0
    }

    function Row(a: bit): real { if a == 0 then j00 + j01 else j10 + j11 }

    function Col(b: bit): real { if b == 0 then j00 + j10 else j01 + j11 }

    function At(a: bit, b: bit): real {
      if a == 0 then if b == 0 then j00 else j01
      else if b == 0 then j10 else j11
    }

    function Sum(): real { j00 + j01 + j10 + j11 }

    function FlipRows(): Table { Table(j10, j11, j00, j01) }

    function FlipCols(): Table { Table(j01, j00, j11, j10) }

    function Transpose(): Table { Table(j00, j10, j01, j11) }
  }

  type bit = b: nat | b <= 1

  function Is(a: bit, b: bit): Pair -> bool { p => p == Pair(a, b) }

  function TableOf(pairs: seq<Pair>): (t: Table)
    ensures t.Valid()
  {
    Table(Tally(Is(0, 0), pairs) as real, Tally(Is(0, 1), pairs) as real,
          Tally(Is(1, 0), pairs) as real, Tally(Is(1, 1), pairs) as real)
  }

  // The share of one cell; an empty cell has none.
  function Term(lg: real -> real, x: real, row: real, col: real, n: real): real
    requires n > 0.0 && (x > 0.0 ==> row > 0.0 && col > 0.0)
  {
    if x > 0.0 then Share(lg, x, row, col, n) else 0.0
  }

  function Share(lg: real -> real, x: real, row: real, col: real, n: real): real
    requires n > 0.0 && x > 0.0 && row > 0.0 && col > 0.0
  {
    x / n * lg(Ratio(x, row, col, n))
  }

  // How much likelier the cell is than if the variables were independent.
  function Ratio(x: real, row: real, col: real, n: real): (q: real)
    requires n > 0.0 && x > 0.0 && row > 0.0 && col > 0.0
    ensures q > 0.0
  {
    Positive(x, n);
    Positive(row, col);
    PositiveQuotient(x * n, row * col);
    x * n / (row * col)
  }

  lemma Positive(a: real, b: real)
    requires a > 0.0 && b > 0.0
    ensures a * b > 0.0
  {
  }

  lemma PositiveQuotient(a: real, b: real)
    requires a > 0.0 && b > 0.0
    ensures a / b > 0.0
  {
    var q := a / b;
    assert q * b == a;
    assert q <= 0.0 ==> q * b <= 0.0;
  }

  function CellTerm(lg: real -> real, t: Table, a: bit, b: bit, n: real): real
    requires t.Valid() && n > 0.0
  {
    Term(lg, t.At(a, b), t.Row(a), t.Col(b), n)
  }

  function RawInformation(lg: real -> real, t: Table, n: real): real
    requires t.Valid() && n > 0.0
  {
    CellTerm(lg, t, 0, 0, n) + CellTerm(lg, t, 0, 1, n) + CellTerm(lg, t, 1, 0, n) + CellTerm(lg, t, 1, 1, n)
  }

  function AtLeastZero(x: real): real { if x < 0.0 then 0.0 else x }

  function Information(lg: real -> real, pairs: seq<Pair>): real {
    if pairs == [] then 0.0 else AtLeastZero(RawInformation(lg, TableOf(pairs), |pairs| as real))
  }

  // Pairs with a label above one enter the length but no cell.
  method MutualInformation(lg: real -> real, pairs: seq<Pair>) returns (mi: real)
    ensures mi == Information(lg, pairs)
  {
    if |pairs| == 0 {
      return 0.0;
    }
    var n := |pairs| as real;
    var joint := new real[2, 2]((i, j) => 0.0);
    for i := 0 to |pairs|
      invariant HoldsTable(joint, TableOf(pairs[..i]))
    {
      TableStep(pairs, i);
      var p := pairs[i];
      if p.expected <= 1 && p.decoded <= 1 {
        joint[p.expected, p.decoded] := joint[p.expected, p.decoded] + 1.0;
      }
    }
    assert pairs[..|pairs|] == pairs;
    mi := SumCells(lg, joint, TableOf(pairs), n);
    mi := AtLeastZero(mi);
  }

  method SumCells(lg: real -> real, joint: array2<real>, ghost t: Table, n: real) returns (mi: real)
    requires t.Valid() && n > 0.0 && HoldsTable(joint, t)
    ensures mi == RawInformation(lg, t, n)
  {
    var rows := [joint[0, 0] + joint[0, 1], joint[1, 0] + joint[1, 1]];
    var cols := [joint[0, 0] + joint[1, 0], joint[0, 1] + joint[1, 1]];
    mi := 0.0;
    for a := 0 to 2
      invariant mi == FirstRows(lg, t, a, n)
    {
      ghost var before := mi;
      for b := 0 to 2
        invariant mi == before + FirstCells(lg, t, a, b, n)
      {
        assert joint[a, b] == t.At(a, b) && rows[a] == t.Row(a) && cols[b] == t.Col(b);
        if joint[a, b] > 0.0 {
          mi := mi + Share(lg, joint[a, b], rows[a], cols[b], n);
        }
      }
    }
    FirstRowsAreAll(lg, t, n);
  }

  ghost predicate HoldsTable(joint: array2<real>, t: Table)
    reads joint
  {
    && joint.Length0 == 2 && joint.Length1 == 2
    && joint[0, 0] == t.j00 && joint[0, 1] == t.j01 && joint[1, 0] == t.j10 && joint[1, 1] == t.j11
  }

  ghost function FirstRows(lg: real -> real, t: Table, a: nat, n: real): real
    requires t.Valid() && n > 0.0 && a <= 2
  {
    if a == 0 then 0.0 else FirstRows(lg, t, a - 1, n) + FirstCells(lg, t, a - 1, 2, n)
  }

  ghost function FirstCells(lg: real -> real, t: Table, a: nat, b: nat, n: real): real
    requires t.Valid() && n > 0.0 && a <= 1 && b <= 2
  {
    if b == 0 then 0.0 else FirstCells(lg, t, a, b - 1, n) + CellTerm(lg, t, a, b - 1, n)
  }

  lemma FirstRowsAreAll(lg: real -> real, t: Table, n: real)
    requires t.Valid() && n > 0.0
    ensures FirstRows(lg, t, 2, n) == RawInformation(lg, t, n)
  {
    assert FirstRows(lg, t, 1, n) == FirstCells(lg, t, 0, 2, n);
    assert FirstCells(lg, t, 0, 1, n) == CellTerm(lg, t, 0, 0, n);
    assert FirstCells(lg, t, 1, 1, n) == CellTerm(lg, t, 1, 0, n);
  }

  lemma TableStep(pairs: seq<Pair>, i: nat)
    requires i < |pairs|
    ensures var (s, t, p) := (TableOf(pairs[..i]), TableOf(pairs[..i + 1]), pairs[i]);
            && t.j00 == s.j00 + (if p == Pair(0, 0) then 1.0 else 0.0)
            && t.j01 == s.j01 + (if p == Pair(0, 1) then 1.0 else 0.0)
            && t.j10 == s.j10 + (if p == Pair(1, 0) then 1.0 else 0.0)
            && t.j11 == s.j11 + (if p == Pair(1, 1) then 1.0 else 0.0)
  {
    assert pairs[..i + 1][..i] == pairs[..i];
  }

  // ---------- only the table matters ----------

  lemma ReorderingKeepsInformation(lg: real -> real, p: seq<Pair>, q: seq<Pair>)
    requires multiset(p) == multiset(q)
    ensures TableOf(p) == TableOf(q) && |p| == |q|
    ensures Information(lg, p) == Information(lg, q)
  {
    TallyOfPermutation(Is(0, 0), p, q);
    TallyOfPermutation(Is(0, 1), p, q);
    TallyOfPermutation(Is(1, 0), p, q);
    TallyOfPermutation(Is(1, 1), p, q);
    assert |multiset(p)| == |multiset(q)|;
  }

  function Map<T>(f: T -> T, xs: seq<T>): (ys: seq<T>)
    ensures |ys| == |xs|
  {
    if xs == [] then [] else Map(f, xs[..|xs| - 1]) + [f(xs[|xs| - 1])]
  }

  lemma {:induction false} TallyMap<T(!new)>(f: T -> bool, g: T -> T, h: T -> bool, xs: seq<T>)
    requires forall x :: f(g(x)) == h(x)
    ensures Tally(f, Map(g, xs)) == Tally(h, xs)
  {
    if xs != [] {
      TallyMap(f, g, h, xs[..|xs| - 1]);
      assert Map(g, xs)[..|xs| - 1] == Map(g, xs[..|xs| - 1]);
    }
  }

  function Other(b: nat): nat { if b == 0 then 1 else if b == 1 then 0 else b }

  function FlipExpected(): Pair -> Pair { (p: Pair) => Pair(Other(p.expected), p.decoded) }

  function FlipDecoded(): Pair -> Pair { (p: Pair) => Pair(p.expected, Other(p.decoded)) }

  function Exchange(): Pair -> Pair { (p: Pair) => Pair(p.decoded, p.expected) }

  lemma FlippedTables(pairs: seq<Pair>)
    ensures TableOf(Map(FlipExpected(), pairs)) == TableOf(pairs).FlipRows()
    ensures TableOf(Map(FlipDecoded(), pairs)) == TableOf(pairs).FlipCols()
    ensures TableOf(Map(Exchange(), pairs)) == TableOf(pairs).Transpose()
  {
    FlippedCell(pairs, 0, 0);
    FlippedCell(pairs, 0, 1);
    FlippedCell(pairs, 1, 0);
    FlippedCell(pairs, 1, 1);
  }

  lemma FlippedCell(pairs: seq<Pair>, a: bit, b: bit)
    ensures Tally(Is(a, b), Map(FlipExpected(), pairs)) == Tally(Is(1 - a, b), pairs)
    ensures Tally(Is(a, b), Map(FlipDecoded(), pairs)) == Tally(Is(a, 1 - b), pairs)
    ensures Tally(Is(a, b), Map(Exchange(), pairs)) == Tally(Is(b, a), pairs)
  {
    TallyMap(Is(a, b), FlipExpected(), Is(1 - a, b), pairs);
    TallyMap(Is(a, b), FlipDecoded(), Is(a, 1 - b), pairs);
    TallyMap(Is(a, b), Exchange(), Is(b, a), pairs);
  }

  // Renaming the bits of either variable, or exchanging the variables, changes nothing.
  lemma SymmetriesKeepInformation(lg: real -> real, pairs: seq<Pair>)
    ensures Information(lg, Map(FlipExpected(), pairs)) == Information(lg, pairs)
    ensures Information(lg, Map(FlipDecoded(), pairs)) == Information(lg, pairs)
    ensures Information(lg, Map(Exchange(), pairs)) == Information(lg, pairs)
  {
    FlippedTables(pairs);
    if pairs != [] {
      TermIsSymmetric(lg, TableOf(pairs), |pairs| as real);
    }
  }

  lemma TermIsSymmetric(lg: real -> real, t: Table, n: real)
    requires t.Valid() && n > 0.0
    ensures RawInformation(lg, t.FlipRows(), n) == RawInformation(lg, t, n)
    ensures RawInformation(lg, t.FlipCols(), n) == RawInformation(lg, t, n)
    ensures RawInformation(lg, t.Transpose(), n) == RawInformation(lg, t, n)
  {
    FlippedCells(lg, t, n);
    TransposedCell(lg, t, 0, 0, n);
    TransposedCell(lg, t, 0, 1, n);
    TransposedCell(lg, t, 1, 0, n);
    TransposedCell(lg, t, 1, 1, n);
  }

  lemma FlippedCells(lg: real -> real, t: Table, n: real)
    requires t.Valid() && n > 0.0
    ensures forall a: bit, b: bit :: CellTerm(lg, t.FlipRows(), a, b, n) == CellTerm(lg, t, 1 - a, b, n)
    ensures forall a: bit, b: bit :: CellTerm(lg, t.FlipCols(), a, b, n) == CellTerm(lg, t, a, 1 - b, n)
  {
  }

  lemma TransposedCell(lg: real -> real, t: Table, a: bit, b: bit, n: real)
    requires t.Valid() && n > 0.0
    ensures CellTerm(lg, t.Transpose(), a, b, n) == CellTerm(lg, t, b, a, n)
  {
    hide Ratio;
    var x, row, col := t.At(b, a), t.Row(b), t.Col(a);
    if x > 0.0 {
      RatioIsSymmetric(x, row, col, n);
    }
  }

  lemma RatioIsSymmetric(x: real, row: real, col: real, n: real)
    requires n > 0.0 && x > 0.0 && row > 0.0 && col > 0.0
    ensures Ratio(x, row, col, n) == Ratio(x, col, row, n)
  {
    assert row * col == col * row;
  }
}
