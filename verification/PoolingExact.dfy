/** What pooling computes: over exact arithmetic, and step by step over arithmetic
    that is not interpreted at all. */
module PoolingExact {
  import opened Common
  import opened Pooling

  /** Real numbers, with a root that need only be right where it is used. */
  function Exact(root: real -> real): Floats<real, real> {
    Floats(0.0, (a: real, b: real) => a + b, (a: real, b: real) => a * b,
           0.0, 1.0, (a: real, b: real) => a + b, (x: real) => x * x, root,
           (x: real) => x > 0.0, (x: real) => if x == 0.0 then 0.0 else 1.0 / x, (n: nat) => n as real)
  }

  lemma ExactCountsByOnes(root: real -> real)
    ensures ExactCounts(Exact(root))
  {
  }

  // ---- Sums, stated without the loops ----

  /** The sum of the k-th components of the tokens. */
  function Column(tokens: seq<seq<real>>, k: nat): real {
    if tokens == [] then 0.0 else (if k < |tokens[0]| then tokens[0][k] else 0.0) + Column(tokens[1..], k)
  }

  function Squared(x: real): real {
    x * x
  }

  function Product(a: real, b: real): real {
    a * b
  }

  /** The sum of the squares of the components. */
  function SquareSum(v: seq<real>): real {
    if v == [] then 0.0 else Squared(v[0]) + SquareSum(v[1..])
  }

  lemma {:induction false} ColumnSnoc(tokens: seq<seq<real>>, t: seq<real>, k: nat)
    ensures Column(tokens + [t], k) == Column(tokens, k) + if k < |t| then t[k] else 0.0
  {
    if tokens == [] {
      assert tokens + [t] == [t] && [t][1..] == [];
    } else {
      assert (tokens + [t])[1..] == tokens[1..] + [t];
      ColumnSnoc(tokens[1..], t, k);
    }
  }

  /** The accumulator ends up with the column sums. */
  lemma {:induction false} SumIsColumns(root: real -> real, tokens: seq<seq<real>>, dim: nat, k: nat)
    requires k < dim
    ensures SumTokens(Exact(root), tokens, dim)[k] == Column(tokens, k)
  {
    if tokens != [] {
      var front, last := tokens[..|tokens| - 1], tokens[|tokens| - 1];
      SumIsColumns(root, front, dim, k);
      ColumnSnoc(front, last, k);
      assert tokens == front + [last];
    }
  }

  lemma {:induction false} SquareSnoc(v: seq<real>, x: real)
    ensures SquareSum(v + [x]) == SquareSum(v) + Squared(x)
  {
    if v == [] {
      assert v + [x] == [x] && [x][1..] == [];
    } else {
      assert (v + [x])[1..] == v[1..] + [x];
      SquareSnoc(v[1..], x);
    }
  }

  lemma {:induction false} SquaresAreSquares(root: real -> real, v: seq<real>)
    ensures SumSquares(Exact(root), v) == SquareSum(v)
  {
    if v != [] {
      var front, last := v[..|v| - 1], v[|v| - 1];
      SquaresAreSquares(root, front);
      SquareSnoc(front, last);
      assert v == front + [last];
    }
  }

  // ---- The mean ----

  /** The column sums over the number of tokens; nothing for no tokens. */
  function Average(tokens: seq<seq<real>>, dim: nat): (v: seq<real>)
    ensures |v| == dim
  {
    seq(dim, k => if tokens == [] || k < 0 then 0.0 else Column(tokens, k) / |tokens| as real)
  }

  /** The number of tokens times the mean is their sum. */
  lemma MeanIsAverage(root: real -> real, tokens: seq<seq<real>>, dim: nat)
    ensures var fl := Exact(root);
            Mean(fl, SumTokens(fl, tokens, dim), fl.ofCount(|tokens|)) == Average(tokens, dim)
    ensures forall k :: 0 <= k < dim ==> |tokens| as real * Average(tokens, dim)[k] == Column(tokens, k)
  {
    var fl := Exact(root);
    var mean := Mean(fl, SumTokens(fl, tokens, dim), fl.ofCount(|tokens|));
    forall k | 0 <= k < dim
      ensures mean[k] == Average(tokens, dim)[k]
      ensures |tokens| as real * Average(tokens, dim)[k] == Column(tokens, k)
    {
      SumIsColumns(root, tokens, dim, k);
      MeanAt(root, SumTokens(fl, tokens, dim), |tokens|, k);
      AverageAt(tokens, dim, k);
    }
  }

  lemma MeanAt(root: real -> real, sum: seq<real>, n: nat, k: nat)
    requires k < |sum|
    ensures var mean := Mean(Exact(root), sum, n as real);
            |mean| == |sum| && mean[k] == if n == 0 then sum[k] else sum[k] / n as real
  {
    if n > 0 {
      Quotient(sum[k], n as real);
    }
  }

  lemma AverageAt(tokens: seq<seq<real>>, dim: nat, k: nat)
    requires k < dim
    ensures Average(tokens, dim)[k] == if tokens == [] then Column(tokens, k) else Column(tokens, k) / |tokens| as real
    ensures |tokens| as real * Average(tokens, dim)[k] == Column(tokens, k)
  {
    if tokens != [] {
      Quotient(Column(tokens, k), |tokens| as real);
    }
  }

  lemma Quotient(a: real, n: real)
    requires n > 0.0
    ensures a * (1.0 / n) == a / n && n * (a / n) == a
  {
    assert a / n * n == a && 1.0 / n * n == 1.0;
    assert a * (1.0 / n) * n == a;
  }

  // ---- The norm ----

  lemma ScaledSquare(c: real, a: real, s: real)
    ensures Squared(a * c) + Product(Squared(c), s) == Product(Squared(c), Squared(a) + s)
  {
    assert (a * c) * (a * c) == c * c * (a * a);
  }

  lemma {:induction false} ScaledSquares(root: real -> real, v: seq<real>, c: real)
    ensures SquareSum(ScaleVec(Exact(root), v, c)) == Product(Squared(c), SquareSum(v))
  {
    if v != [] {
      var scaled := ScaleVec(Exact(root), v, c);
      ScaledSquares(root, v[1..], c);
      assert scaled[0] == v[0] * c && scaled[1..] == ScaleVec(Exact(root), v[1..], c);
      SquareCons(scaled);
      SquareCons(v);
      ScaledSquare(c, v[0], SquareSum(v[1..]));
    }
  }

  lemma SquareCons(v: seq<real>)
    requires v != []
    ensures SquareSum(v) == Squared(v[0]) + SquareSum(v[1..])
  {
  }

  lemma SquareSign(x: real)
    ensures Squared(x) >= 0.0 && (Squared(x) == 0.0 <==> x == 0.0)
  {
    if x > 0.0 {
      PositiveSquare(x);
    } else if x < 0.0 {
      PositiveSquare(-x);
      assert Squared(x) == Squared(-x);
    } else {
      assert Squared(0.0) == 0.0;
    }
  }

  lemma PositiveSquare(x: real)
    requires x > 0.0
    ensures Squared(x) > 0.0
  {
    assert Squared(x) / x == x;
  }

  lemma {:induction false} SquareSumSign(v: seq<real>)
    ensures SquareSum(v) >= 0.0
    ensures SquareSum(v) == 0.0 <==> forall k :: 0 <= k < |v| ==> v[k] == 0.0
  {
    if v != [] {
      var x, rest := v[0], v[1..];
      SquareSumSign(rest);
      SquareSign(x);
      SquareCons(v);
      if x != 0.0 {
        assert SquareSum(v) > 0.0;
        assert !(forall k :: 0 <= k < |v| ==> v[k] == 0.0);
      } else if SquareSum(rest) == 0.0 {
        forall k | 0 <= k < |v|
          ensures v[k] == 0.0
        {
          assert k > 0 ==> v[k] == rest[k - 1];
        }
      } else {
        var k :| 0 <= k < |rest| && rest[k] != 0.0;
        assert v[k + 1] != 0.0;
      }
    }
  }

  lemma UnitScale(norm: real, q: real)
    requires norm > 0.0 && Squared(norm) == q
    ensures Product(Squared(1.0 / norm), q) == 1.0 && 1.0 / norm > 0.0
  {
    var c := 1.0 / norm;
    assert c * norm == 1.0;
    assert c * c * q == (c * norm) * (c * norm);
  }

  /** The root is right at this number. */
  ghost predicate RootAt(root: real -> real, q: real) {
    root(q) >= 0.0 && Squared(root(q)) == q
  }

  /** Normalising a vector that is not zero gives a positive multiple of it of
      length one; the zero vector stays. */
  lemma NormalizedIsUnit(root: real -> real, v: seq<real>)
    requires RootAt(root, SquareSum(v))
    ensures var r := Normalize(Exact(root), v);
            if exists k :: 0 <= k < |v| && v[k] != 0.0
            then SquareSum(r) == 1.0 && PositiveMultiple(r, v)
            else r == v
  {
    var q := SquareSum(v);
    NormalizeShape(root, v, root(q));
    SquareSumSign(v);
    SquareSign(root(q));
    if q > 0.0 {
      ScaledToUnit(root, v, root(q), q);
    }
  }

  lemma NormalizeShape(root: real -> real, v: seq<real>, norm: real)
    requires norm == root(SquareSum(v)) && norm >= 0.0
    ensures Normalize(Exact(root), v) == if norm > 0.0 then ScaleVec(Exact(root), v, 1.0 / norm) else v
  {
    SquaresAreSquares(root, v);
  }

  lemma ScaledToUnit(root: real -> real, v: seq<real>, norm: real, q: real)
    requires norm > 0.0 && Squared(norm) == q && q == SquareSum(v)
    ensures var r := ScaleVec(Exact(root), v, 1.0 / norm); SquareSum(r) == 1.0 && PositiveMultiple(r, v)
  {
    var c := 1.0 / norm;
    UnitScale(norm, q);
    ScaledSquares(root, v, c);
    assert IsMultiple(ScaleVec(Exact(root), v, c), v, c);
  }

  ghost predicate IsMultiple(r: seq<real>, v: seq<real>, c: real) {
    |r| == |v| && forall k :: 0 <= k < |v| ==> r[k] == v[k] * c
  }

  ghost predicate PositiveMultiple(r: seq<real>, v: seq<real>) {
    exists c :: c > 0.0 && IsMultiple(r, v, c)
  }

  /** Over exact arithmetic the pooled vector is the unit vector in the direction
      of the token sum, and zero if that sum is zero or there are no tokens. */
  lemma PooledIsUnit(root: real -> real, tokens: seq<seq<real>>, dim: nat)
    requires RootAt(root, SquareSum(Average(tokens, dim)))
    ensures var v := PoolTokens(Exact(root), tokens, dim);
            |v| == dim &&
            if exists k: nat :: k < dim && Column(tokens, k) != 0.0
            then SquareSum(v) == 1.0 && exists c :: c > 0.0 && FollowsSum(v, tokens, c)
            else forall k :: 0 <= k < dim ==> v[k] == 0.0
  {
    PoolIsNormalizedAverage(root, tokens, dim);
    var mean := Average(tokens, dim);
    NormalizedIsUnit(root, mean);
    forall k: nat | k < dim
      ensures mean[k] == 0.0 <==> Column(tokens, k) == 0.0
    {
      AverageSign(tokens, dim, k);
    }
    if k: nat :| k < dim && Column(tokens, k) != 0.0 {
      var v := PoolTokens(Exact(root), tokens, dim);
      var c :| c > 0.0 && IsMultiple(v, mean, c);
      MultipleOfSum(v, tokens, dim, c);
    }
  }

  lemma PoolIsNormalizedAverage(root: real -> real, tokens: seq<seq<real>>, dim: nat)
    ensures PoolTokens(Exact(root), tokens, dim) == Normalize(Exact(root), Average(tokens, dim))
  {
    MeanIsAverage(root, tokens, dim);
  }

  lemma AverageSign(tokens: seq<seq<real>>, dim: nat, k: nat)
    requires k < dim
    ensures Average(tokens, dim)[k] == 0.0 <==> Column(tokens, k) == 0.0
    ensures tokens == [] ==> Column(tokens, k) == 0.0
  {
    if tokens != [] {
      Quotient(Column(tokens, k), |tokens| as real);
    }
  }

  /** Every component is c times the sum of the tokens' components. */
  ghost predicate FollowsSum(v: seq<real>, tokens: seq<seq<real>>, c: real) {
    forall k :: 0 <= k < |v| ==> v[k] == Column(tokens, k) * c
  }

  lemma MultipleOfSum(v: seq<real>, tokens: seq<seq<real>>, dim: nat, c: real)
    requires c > 0.0 && IsMultiple(v, Average(tokens, dim), c) && tokens != []
    ensures exists d :: d > 0.0 && FollowsSum(v, tokens, d)
  {
    var n := |tokens| as real;
    var d := c / n;
    forall k | 0 <= k < |v|
      ensures v[k] == Column(tokens, k) * d
    {
      Regroup(Column(tokens, k), n, c);
    }
    assert d > 0.0;
    assert FollowsSum(v, tokens, d);
  }

  lemma Regroup(a: real, n: real, c: real)
    requires n > 0.0
    ensures a / n * c == a * (c / n)
  {
    Quotient(a, n);
    Quotient(c, n);
    assert n * (a / n * c) == a * c;
    assert n * (a * (c / n)) == a * c;
  }

  /** One token with the hidden state (3, 4) is pooled to (3/5, 4/5). */
  lemma ThreeFour(root: real -> real)
    requires root(25.0) == 5.0
    ensures PoolTokens(Exact(root), [[3.0, 4.0]], 2) == [0.6, 0.8]
  {
    var tokens := [[3.0, 4.0]];
    var mean := Average(tokens, 2);
    MeanIsAverage(root, tokens, 2);
    assert tokens[1..] == [];
    assert Column(tokens, 0) == 3.0 && Column(tokens, 1) == 4.0;
    assert mean == [3.0, 4.0];
    SquaresAreSquares(root, mean);
    assert mean[1..] == [4.0] && [4.0][1..] == [];
    assert SquareSum([4.0]) == 16.0;
    assert SquareSum(mean) == 25.0;
    assert ScaleVec(Exact(root), mean, 1.0 / 5.0) == [0.6, 0.8];
  }

  // ---- The order of the operations ----

  /** Expressions that record which operation was applied to what. */
  datatype Term =
    | Zero | One | Cell(j: nat, k: nat) | Count(n: nat)
    | Plus(a: Term, b: Term) | Times(a: Term, b: Term) | Square(a: Term) | Root(a: Term) | Inverse(a: Term)

  /** Arithmetic that computes nothing. */
  function Recording(): Floats<Term, Term> {
    Floats(Zero, (a: Term, b: Term) => Plus(a, b), (a: Term, b: Term) => Times(a, b),
           Zero, One, (a: Term, b: Term) => Plus(a, b), (a: Term) => Square(a), (a: Term) => Root(a),
           (a: Term) => true, (a: Term) => Inverse(a), (n: nat) => Count(n))
  }

  /** Two tokens of one component: add them up from zero, scale by the inverse of
      the count, then by the inverse of the root of the squares of that mean. */
  lemma OrderOfOperations()
    ensures var sum := Plus(Plus(Zero, Cell(0, 0)), Cell(1, 0));
            var mean := Times(sum, Inverse(Count(2)));
            PoolTokens(Recording(), [[Cell(0, 0)], [Cell(1, 0)]], 1) ==
              [Times(mean, Inverse(Root(Plus(Zero, Square(mean)))))]
  {
    var fl, first, second := Recording(), [Cell(0, 0)], [Cell(1, 0)];
    var sum := Plus(Plus(Zero, Cell(0, 0)), Cell(1, 0));
    assert [first, second][..1] == [first] && [first][..0] == [];
    assert SumTokens(fl, [first], 1) == [Plus(Zero, Cell(0, 0))];
    assert SumTokens(fl, [first, second], 1) == [sum];
    var mean := Times(sum, Inverse(Count(2)));
    assert Mean(fl, [sum], Count(2)) == [mean];
    assert [mean][..0] == [];
    assert SumSquares(fl, [mean]) == Plus(Zero, Square(mean));
  }
}
