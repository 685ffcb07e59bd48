/**
 * hasSolution: does some ordering of four numbers, some choice of three
 * operators and one of three groupings reach exactly 24? (script.js:352-384,
 * duplicated in tmp_dump_daily.js:73-96.)
 */
module Solver {
  import opened Expressions
  import opened Permutations

  /** `['+', '-', '*', '/']`, in the order the loops try them. */
  const Operators: seq<Op> := [Add, Sub, Mul, Div]

  /** The three template strings, in the order they are tried. */
  const Shapes: seq<Shape> := [Balanced, LeftComb, RightComb]

  /** The token list of the expression built from ordering `p`, three operators and a grouping. */
  function Candidate(p: seq<int>, o1: Op, o2: Op, o3: Op, sh: Shape): seq<Token>
    requires |p| == 4
  {
    Tokens(ShapeExpr(sh, p[0], p[1], p[2], p[3], o1, o2, o3))
  }

  /**
   * The expression built from ordering `p`, three operators and a grouping
   * has the value 24, evaluated directly as a tree with the game's
   * exact-division rule.
   */
  predicate Hits24(p: seq<int>, o1: Op, o2: Op, o3: Op, sh: Shape)
  {
    |p| == 4 && EvalExpr(ShapeExpr(sh, p[0], p[1], p[2], p[3], o1, o2, o3)) == Ok(Int(24))
  }

  /** A candidate answer: an ordering of the numbers, three operators and a grouping. */
  datatype Solution = Solution(order: seq<int>, o1: Op, o2: Op, o3: Op, shape: Shape)

  /** `w` reorders `nums` and its expression reaches 24. */
  predicate Solves(w: Solution, nums: seq<int>)
  {
    multiset(w.order) == multiset(nums) && Hits24(w.order, w.o1, w.o2, w.o3, w.shape)
  }

  /** Some reordering of `nums`, operator triple and grouping reaches 24. */
  ghost predicate Solvable(nums: seq<int>)
  {
    exists w: Solution :: Solves(w, nums)
  }

  lemma EveryOperatorTried(o: Op)
    ensures o in Operators
  {
    match o
    case Add => assert Operators[0] == o;
    case Sub => assert Operators[1] == o;
    case Mul => assert Operators[2] == o;
    case Div => assert Operators[3] == o;
  }

  lemma EveryShapeTried(sh: Shape)
    ensures sh in Shapes
  {
    match sh
    case Balanced => assert Shapes[0] == sh;
    case LeftComb => assert Shapes[1] == sh;
    case RightComb => assert Shapes[2] == sh;
  }

  /**
   * hasSolution. The search answers true exactly when the numbers are
   * solvable: every ordering getPermutations returns is a reordering, and
   * every reordering is among them.
   */
  method HasSolution(numbers: seq<int>) returns (found: bool)
    requires |numbers| == 4
    ensures found == Solvable(numbers)
  {
    var perms := GetPermutations(numbers);
    var pi := 0;
    while pi < |perms|
      invariant 0 <= pi <= |perms|
      invariant forall j, o1, o2, o3, sh :: 0 <= j < pi ==> !Hits24(perms[j], o1, o2, o3, sh)
    {
      var p := perms[pi];
      PermsMembership(numbers, p);
      assert |p| == |multiset(p)| == 4;
      var a := 0;
      while a < |Operators|
        invariant 0 <= a <= |Operators|
        invariant forall o1, o2, o3, sh :: o1 in Operators[..a] ==> !Hits24(p, o1, o2, o3, sh)
      {
        var b := 0;
        while b < |Operators|
          invariant 0 <= b <= |Operators|
          invariant forall o1, o2, o3, sh :: o1 in Operators[..a] ==> !Hits24(p, o1, o2, o3, sh)
          invariant forall o2, o3, sh :: o2 in Operators[..b] ==> !Hits24(p, Operators[a], o2, o3, sh)
        {
          var c := 0;
          while c < |Operators|
            invariant 0 <= c <= |Operators|
            invariant forall o2, o3, sh :: o2 in Operators[..b] ==> !Hits24(p, Operators[a], o2, o3, sh)
            invariant forall o3, sh :: o3 in Operators[..c] ==> !Hits24(p, Operators[a], Operators[b], o3, sh)
          {
            var s := 0;
            while s < |Shapes|
              invariant 0 <= s <= |Shapes|
              invariant forall sh :: sh in Shapes[..s] ==> !Hits24(p, Operators[a], Operators[b], Operators[c], sh)
            {
              // A thrown error is caught and the next template is tried.
              var r := EvaluateExpression(Candidate(p, Operators[a], Operators[b], Operators[c], Shapes[s]));
              CandidateMeansTree(p, Operators[a], Operators[b], Operators[c], Shapes[s]);
              if r == Ok(Int(24)) {
                assert Solves(Solution(p, Operators[a], Operators[b], Operators[c], Shapes[s]), numbers);
                return true;
              }
              assert Shapes[..s + 1] == Shapes[..s] + [Shapes[s]];
              s := s + 1;
            }
            assert forall sh :: !Hits24(p, Operators[a], Operators[b], Operators[c], sh) by {
              forall sh ensures !Hits24(p, Operators[a], Operators[b], Operators[c], sh) {
                EveryShapeTried(sh);
                assert Shapes[..s] == Shapes;
              }
            }
            assert Operators[..c + 1] == Operators[..c] + [Operators[c]];
            c := c + 1;
          }
          assert forall o3, sh :: !Hits24(p, Operators[a], Operators[b], o3, sh) by {
            forall o3, sh ensures !Hits24(p, Operators[a], Operators[b], o3, sh) {
              EveryOperatorTried(o3);
              assert Operators[..c] == Operators;
            }
          }
          assert Operators[..b + 1] == Operators[..b] + [Operators[b]];
          b := b + 1;
        }
        assert forall o2, o3, sh :: !Hits24(p, Operators[a], o2, o3, sh) by {
          forall o2, o3, sh ensures !Hits24(p, Operators[a], o2, o3, sh) {
            EveryOperatorTried(o2);
            assert Operators[..b] == Operators;
          }
        }
        assert Operators[..a + 1] == Operators[..a] + [Operators[a]];
        a := a + 1;
      }
      assert forall o1, o2, o3, sh :: !Hits24(p, o1, o2, o3, sh) by {
        forall o1, o2, o3, sh ensures !Hits24(p, o1, o2, o3, sh) {
          EveryOperatorTried(o1);
          assert Operators[..a] == Operators;
        }
      }
      pi := pi + 1;
    }
    found := false;
    NoReorderingHits(numbers, perms);
  }

  /** If no ordering getPermutations returns hits 24, the numbers are not solvable. */
  lemma NoReorderingHits(numbers: seq<int>, perms: seq<seq<int>>)
    requires perms == Perms(numbers)
    requires forall j, o1, o2, o3, sh :: 0 <= j < |perms| ==> !Hits24(perms[j], o1, o2, o3, sh)
    ensures !Solvable(numbers)
  {
    forall w: Solution ensures !Solves(w, numbers) {
      if multiset(w.order) == multiset(numbers) {
        PermsMembership(numbers, w.order);
        var j :| 0 <= j < |perms| && perms[j] == w.order;
      }
    }
  }

  /**
   * The solver's test on a candidate (the string evaluated through
   * infixToPostfix and evaluatePostfix, within 0.001 of 24) is the tree's
   * value being exactly 24: every value the evaluator produces is an
   * integer or NaN.
   */
  lemma CandidateMeansTree(p: seq<int>, o1: Op, o2: Op, o3: Op, sh: Shape)
    requires |p| == 4
    ensures EvalTokens(Candidate(p, o1, o2, o3, sh)) == Ok(Int(24)) <==> Hits24(p, o1, o2, o3, sh)
  {
    EvalTokensMatchesTree(ShapeExpr(sh, p[0], p[1], p[2], p[3], o1, o2, o3));
  }

  /** Reordering the input does not change the answer. */
  lemma SolvableUnderReorder(xs: seq<int>, ys: seq<int>)
    requires multiset(xs) == multiset(ys)
    ensures Solvable(xs) <==> Solvable(ys)
  {
    if Solvable(xs) {
      var w :| Solves(w, xs);
      assert Solves(w, ys);
    }
    if Solvable(ys) {
      var w :| Solves(w, ys);
      assert Solves(w, xs);
    }
  }

  /** `((5 * 2) + 7) + 7` is 24, so 5, 7, 2, 7 is solvable. */
  lemma SolvableExample()
    ensures Solvable([5, 7, 2, 7])
  {
    var p := [5, 2, 7, 7];
    assert multiset(p) == multiset([5, 7, 2, 7]);
    assert Solves(Solution(p, Mul, Add, Add, LeftComb), [5, 7, 2, 7]);
  }

  function Leaves(e: Expr): (n: nat)
    ensures n >= 1
  {
    match e
    case Lit(_) => 1
    case Bin(_, l, r) => Leaves(l) + Leaves(r)
  }

  function Pow2(n: nat): (r: nat)
    ensures r >= 1
  {
    if n == 0 then 1 else 2 * Pow2(n - 1)
  }

  predicate SmallLeaves(e: Expr)
  {
    match e
    case Lit(n) => -1 <= n <= 1
    case Bin(_, l, r) => SmallLeaves(l) && SmallLeaves(r)
  }

  lemma {:induction false} Pow2Add(a: nat, b: nat)
    ensures Pow2(a) * Pow2(b) == Pow2(a + b)
  {
    if a > 0 {
      Pow2Add(a - 1, b);
    }
  }

  function Abs(x: int): nat
  {
    if x < 0 then -x else x
  }

  lemma AbsMul(x: int, y: int)
    ensures Abs(x * y) == Abs(x) * Abs(y)
  {
    if x < 0 && y < 0 {
      assert x * y == (-x) * (-y);
    } else if x < 0 {
      assert x * y == -((-x) * y);
    } else if y < 0 {
      assert x * y == -(x * (-y));
    }
  }

  lemma MulMono(a: nat, b: nat, c: nat, d: nat)
    requires a <= c && b <= d
    ensures a * b <= c * d
  {
    assert a * b <= c * b;
    assert c * b <= c * d;
  }

  /** An exact quotient is no larger in magnitude than its dividend. */
  lemma QuotientBound(x: int, y: int)
    requires y != 0 && x % y == 0
    ensures Abs(x / y) <= Abs(x)
  {
    var q := x / y;
    assert x == y * q;
    AbsMul(y, q);
    MulMono(1, Abs(q), Abs(y), Abs(q));
  }

  /**
   * A tree whose leaves are at most 1 in magnitude evaluates to at most
   * 2^(leaves - 1) in magnitude.
   */
  lemma {:induction false} SmallLeavesBound(e: Expr)
    requires SmallLeaves(e)
    ensures EvalExpr(e).Ok? ==> Abs(EvalExpr(e).value.i) <= Pow2(Leaves(e) - 1)
  {
    match e
    case Lit(_) =>
    case Bin(o, l, r) =>
      SmallLeavesBound(l);
      SmallLeavesBound(r);
      if EvalExpr(e).Ok? {
        var x, y := EvalExpr(l).value.i, EvalExpr(r).value.i;
        var bl, br := Pow2(Leaves(l) - 1), Pow2(Leaves(r) - 1);
        Pow2Add(Leaves(l) - 1, Leaves(r) - 1);
        assert Pow2(Leaves(e) - 1) == 2 * (bl * br);
        MulMono(bl, 1, bl, br);
        MulMono(1, br, bl, br);
        match o
        case Add =>
        case Sub =>
        case Mul =>
          AbsMul(x, y);
          MulMono(Abs(x), Abs(y), bl, br);
        case Div =>
          QuotientBound(x, y);
      }
  }

  /** Four ones reach at most 8, so 1, 1, 1, 1 has no solution. */
  lemma UnsolvableExample()
    ensures !Solvable([1, 1, 1, 1])
  {
    forall w: Solution ensures !Solves(w, [1, 1, 1, 1]) {
      var p, o1, o2, o3, sh := w.order, w.o1, w.o2, w.o3, w.shape;
      if |p| == 4 && multiset(p) == multiset([1, 1, 1, 1]) {
        forall k | 0 <= k < 4 ensures p[k] == 1 {
          assert p[k] in multiset(p);
        }
        var e := ShapeExpr(sh, p[0], p[1], p[2], p[3], o1, o2, o3);
        assert Leaves(e) == 4 && SmallLeaves(e) by {
          var a, b, c, d := Lit(p[0]), Lit(p[1]), Lit(p[2]), Lit(p[3]);
          assert p[0] == 1 && p[1] == 1 && p[2] == 1 && p[3] == 1;
          assert SmallLeaves(a) && SmallLeaves(b) && SmallLeaves(c) && SmallLeaves(d);
          match sh
          case Balanced =>
            assert Leaves(Bin(o1, a, b)) == 2 && Leaves(Bin(o3, c, d)) == 2;
          case LeftComb =>
            assert Leaves(Bin(o1, a, b)) == 2 && SmallLeaves(Bin(o1, a, b));
            assert Leaves(Bin(o2, Bin(o1, a, b), c)) == 3;
          case RightComb =>
            assert Leaves(Bin(o3, c, d)) == 2 && SmallLeaves(Bin(o3, c, d));
            assert Leaves(Bin(o2, b, Bin(o3, c, d))) == 3;
        }
        SmallLeavesBound(e);
        assert Pow2(3) == 8;
      }
    }
  }
}
