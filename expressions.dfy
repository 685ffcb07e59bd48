/**
 * Expression evaluation of the 24 solver: the token list of one candidate
 * expression, its infix-to-postfix conversion (a shunting-yard pass driven by
 * an operator stack) and the stack evaluator with the game's exact-division
 * rule. Both copies of the solver (script.js and tmp_dump_daily.js) behave
 * identically on the token lists the solver builds.
 */
module Expressions {

  /** The four operators '+', '-', '*', '/'. */
  datatype Op = Add | Sub | Mul | Div

  /** One token of a tokenised expression string. */
  datatype Token = Num(n: int) | OpTok(op: Op) | LParen | RParen

  /** The precedence table of infixToPostfix. */
  function Prec(op: Op): nat
  {
    if op == Add || op == Sub then 1 else 2
  }

  // ---------------------------------------------------------------------
  // infixToPostfix
  // ---------------------------------------------------------------------

  /** An entry of the operator stack: an open parenthesis or a pending operator. */
  datatype Pending = Open | Pend(op: Op)

  /** The conversion's state: the output list and the operator stack (top last). */
  datatype Shunt = Shunt(output: seq<Token>, ops: seq<Pending>)

  /** The token an operator-stack entry becomes when it is moved to the output. */
  function Emit(p: Pending): Token
  {
    match p
    case Open => LParen
    case Pend(o) => OpTok(o)
  }

  /** The operator stack with its top removed; the top itself goes to the output. */
  function MoveTop(st: Shunt): Shunt
    requires |st.ops| > 0
  {
    Shunt(st.output + [Emit(st.ops[|st.ops| - 1])], st.ops[..|st.ops| - 1])
  }

  /** On ')': pops operators to the output until an open parenthesis (or the bottom) is on top. */
  function PopToOpen(st: Shunt): Shunt
    decreases |st.ops|
  {
    if |st.ops| > 0 && st.ops[|st.ops| - 1] != Open then PopToOpen(MoveTop(st)) else st
  }

  /** On an operator `o`: pops the operators binding at least as tightly as `o`, never crossing '('. */
  function PopBinding(st: Shunt, o: Op): Shunt
    decreases |st.ops|
  {
    if |st.ops| > 0 && st.ops[|st.ops| - 1].Pend? && Prec(st.ops[|st.ops| - 1].op) >= Prec(o)
    then PopBinding(MoveTop(st), o)
    else st
  }

  /** What the conversion does with one token. */
  function ShuntStep(st: Shunt, t: Token): Shunt
  {
    match t
    case Num(n) => st.(output := st.output + [Num(n)])
    case LParen => st.(ops := st.ops + [Open])
    case RParen =>
      var s := PopToOpen(st);
      if |s.ops| > 0 && s.ops[|s.ops| - 1] == Open then s.(ops := s.ops[..|s.ops| - 1]) else s
    case OpTok(o) =>
      var s := PopBinding(st, o);
      s.(ops := s.ops + [Pend(o)])
  }

  /** The conversion run over a token list from a given state. */
  function ShuntAll(st: Shunt, tokens: seq<Token>): Shunt
    decreases |tokens|
  {
    if tokens == [] then st else ShuntAll(ShuntStep(st, tokens[0]), tokens[1..])
  }

  /** The final drain: every stack entry, top first, goes to the output (an unmatched '(' too). */
  function Drain(st: Shunt): seq<Token>
    decreases |st.ops|
  {
    if |st.ops| == 0 then st.output else Drain(MoveTop(st))
  }

  /** The postfix list infixToPostfix returns for `tokens`. */
  function ToPostfix(tokens: seq<Token>): seq<Token>
  {
    Drain(ShuntAll(Shunt([], []), tokens))
  }

  /** infixToPostfix, with its output list and operator stack. */
  method InfixToPostfix(tokens: seq<Token>) returns (output: seq<Token>)
    ensures output == ToPostfix(tokens)
  {
    output := [];
    var operators: seq<Pending> := [];
    var k := 0;
    while k < |tokens|
      invariant 0 <= k <= |tokens|
      invariant ShuntAll(Shunt(output, operators), tokens[k..]) == ShuntAll(Shunt([], []), tokens)
    {
      ghost var before := Shunt(output, operators);
      assert tokens[k..] == [tokens[k]] + tokens[k + 1..];
      match tokens[k] {
        case Num(n) =>
          output := output + [Num(n)];
        case LParen =>
          operators := operators + [Open];
        case RParen =>
          while |operators| > 0 && operators[|operators| - 1] != Open
            invariant PopToOpen(Shunt(output, operators)) == PopToOpen(before)
            decreases |operators|
          {
            output := output + [Emit(operators[|operators| - 1])];
            operators := operators[..|operators| - 1];
          }
          if |operators| > 0 && operators[|operators| - 1] == Open {
            operators := operators[..|operators| - 1];
          }
        case OpTok(o) =>
          while |operators| > 0 && operators[|operators| - 1].Pend? && Prec(operators[|operators| - 1].op) >= Prec(o)
            invariant PopBinding(Shunt(output, operators), o) == PopBinding(before, o)
            decreases |operators|
          {
            output := output + [OpTok(operators[|operators| - 1].op)];
            operators := operators[..|operators| - 1];
          }
          operators := operators + [Pend(o)];
      }
      assert Shunt(output, operators) == ShuntStep(before, tokens[k]);
      k := k + 1;
    }
    while |operators| > 0
      invariant Drain(Shunt(output, operators)) == ToPostfix(tokens)
      decreases |operators|
    {
      output := output + [Emit(operators[|operators| - 1])];
      operators := operators[..|operators| - 1];
    }
  }

  // ---------------------------------------------------------------------
  // evaluatePostfix
  // ---------------------------------------------------------------------

  /** A JavaScript number as the evaluator sees it: an integer, or NaN (also standing for undefined). */
  datatype Value = Int(i: int) | NaN

  /** Why a candidate is abandoned: the two errors evaluatePostfix throws. */
  datatype Reason = DivisionByZero | NonInteger

  /** What evaluating a postfix list gives: the value of stack[0], or the error thrown. */
  datatype Outcome = Ok(value: Value) | Err(reason: Reason)

  /** The evaluator's state: the value stack (top last), or the error that stopped it. */
  datatype Run = Running(stack: seq<Value>) | Thrown(reason: Reason)

  /** `stack.pop()`'s value: the top, or undefined on an empty stack. */
  function Top(stack: seq<Value>): Value
  {
    if |stack| > 0 then stack[|stack| - 1] else NaN
  }

  /** The stack after `stack.pop()`; popping an empty stack leaves it empty. */
  function Popped(stack: seq<Value>): seq<Value>
  {
    if |stack| > 0 then stack[..|stack| - 1] else []
  }

  /**
   * One operator applied to `a` and `b`. Arithmetic with NaN gives NaN. Division
   * throws on a zero divisor and on a non-exact quotient (`a % b !== 0`, which
   * also holds when either operand is NaN).
   */
  function Apply(op: Op, a: Value, b: Value): (r: Outcome)
    ensures a.Int? && b.Int? && r.Ok? ==> r.value.Int?
    ensures r.Err? <==> op == Div && (b == Int(0) || !a.Int? || !b.Int? || a.i % b.i != 0)
  {
    match op
    case Add => if a.Int? && b.Int? then Ok(Int(a.i + b.i)) else Ok(NaN)
    case Sub => if a.Int? && b.Int? then Ok(Int(a.i - b.i)) else Ok(NaN)
    case Mul => if a.Int? && b.Int? then Ok(Int(a.i * b.i)) else Ok(NaN)
    case Div =>
      if b == Int(0) then Err(DivisionByZero)
      else if !a.Int? || !b.Int? || a.i % b.i != 0 then Err(NonInteger)
      else Ok(Int(a.i / b.i))
  }

  /** What the evaluator does with one postfix token; a parenthesis pops two values and pushes nothing. */
  function EvalStep(stack: seq<Value>, t: Token): Run
  {
    match t
    case Num(n) => Running(stack + [Int(n)])
    case OpTok(o) =>
      var b := Top(stack);
      var a := Top(Popped(stack));
      (match Apply(o, a, b)
       case Ok(v) => Running(Popped(Popped(stack)) + [v])
       case Err(e) => Thrown(e))
    case LParen => Running(Popped(Popped(stack)))
    case RParen => Running(Popped(Popped(stack)))
  }

  /** The evaluator run over a postfix list from a given stack. */
  function EvalFrom(stack: seq<Value>, postfix: seq<Token>): Run
    decreases |postfix|
  {
    if postfix == [] then Running(stack)
    else
      match EvalStep(stack, postfix[0])
      case Thrown(e) => Thrown(e)
      case Running(s) => EvalFrom(s, postfix[1..])
  }

  /** evaluatePostfix: the bottom of the final stack (`stack[0]`), or the error thrown. */
  function EvalPostfix(postfix: seq<Token>): Outcome
  {
    match EvalFrom([], postfix)
    case Thrown(e) => Err(e)
    case Running(s) => Ok(if |s| > 0 then s[0] else NaN)
  }

  /** evaluatePostfix, with its value stack. */
  method EvaluatePostfix(postfix: seq<Token>) returns (r: Outcome)
    ensures r == EvalPostfix(postfix)
  {
    var stack: seq<Value> := [];
    var k := 0;
    while k < |postfix|
      invariant 0 <= k <= |postfix|
      invariant EvalFrom(stack, postfix[k..]) == EvalFrom([], postfix)
    {
      assert postfix[k..] == [postfix[k]] + postfix[k + 1..];
      match postfix[k] {
        case Num(n) =>
          stack := stack + [Int(n)];
        case OpTok(o) =>
          var b := Top(stack);
          stack := Popped(stack);
          var a := Top(stack);
          stack := Popped(stack);
          var v := Apply(o, a, b);
          if v.Err? {
            return Err(v.reason);
          }
          stack := stack + [v.value];
        case LParen =>
          stack := Popped(Popped(stack));
        case RParen =>
          stack := Popped(Popped(stack));
      }
      k := k + 1;
    }
    r := Ok(if |stack| > 0 then stack[0] else NaN);
  }

  /** evaluateExpression on an already tokenised expression: conversion, then evaluation. */
  function EvalTokens(tokens: seq<Token>): Outcome
  {
    EvalPostfix(ToPostfix(tokens))
  }

  /** evaluateExpression (tokenising left out: it takes the token list). */
  method EvaluateExpression(tokens: seq<Token>) returns (r: Outcome)
    ensures r == EvalTokens(tokens)
  {
    var postfix := InfixToPostfix(tokens);
    r := EvaluatePostfix(postfix);
  }

  // ---------------------------------------------------------------------
  // Expression trees: the reference semantics
  // ---------------------------------------------------------------------

  /** An arithmetic expression over integers. */
  datatype Expr = Lit(n: int) | Bin(op: Op, left: Expr, right: Expr)

  /**
   * Direct evaluation of a tree with the game's rules, left operand first.
   * Every value it produces is an integer.
   */
  function EvalExpr(e: Expr): (r: Outcome)
    ensures r.Ok? ==> r.value.Int?
  {
    match e
    case Lit(n) => Ok(Int(n))
    case Bin(o, l, rt) =>
      match EvalExpr(l)
      case Err(x) => Err(x)
      case Ok(a) =>
        match EvalExpr(rt)
        case Err(x) => Err(x)
        case Ok(b) => Apply(o, a, b)
  }

  /** The postfix form of a tree. */
  function PostfixOf(e: Expr): seq<Token>
  {
    match e
    case Lit(n) => [Num(n)]
    case Bin(o, l, r) => PostfixOf(l) + PostfixOf(r) + [OpTok(o)]
  }

  /** An operand as printed: a number bare, a compound operand in parentheses. */
  function Group(e: Expr): seq<Token>
    decreases e, 1
  {
    match e
    case Lit(n) => [Num(n)]
    case Bin(_, _, _) => [LParen] + Tokens(e) + [RParen]
  }

  /** The tokens of a tree printed with parentheses around every compound operand. */
  function Tokens(e: Expr): seq<Token>
    decreases e, 0
  {
    match e
    case Lit(n) => [Num(n)]
    case Bin(o, l, r) => Group(l) + [OpTok(o)] + Group(r)
  }

  /** The three groupings hasSolution tries. */
  datatype Shape = Balanced | LeftComb | RightComb

  /**
   * `(a o1 b) o2 (c o3 d)`, `((a o1 b) o2 c) o3 d` and `a o1 (b o2 (c o3 d))`.
   */
  function ShapeExpr(sh: Shape, a: int, b: int, c: int, d: int, o1: Op, o2: Op, o3: Op): Expr
  {
    match sh
    case Balanced => Bin(o2, Bin(o1, Lit(a), Lit(b)), Bin(o3, Lit(c), Lit(d)))
    case LeftComb => Bin(o3, Bin(o2, Bin(o1, Lit(a), Lit(b)), Lit(c)), Lit(d))
    case RightComb => Bin(o1, Lit(a), Bin(o2, Lit(b), Bin(o3, Lit(c), Lit(d))))
  }

  // ---------------------------------------------------------------------
  // Lemmas
  // ---------------------------------------------------------------------

  /** The printed shapes are exactly the token lists of the three template strings. */
  lemma ShapeTokensAsWritten(a: int, b: int, c: int, d: int, o1: Op, o2: Op, o3: Op)
    ensures Tokens(ShapeExpr(Balanced, a, b, c, d, o1, o2, o3))
         == [LParen, Num(a), OpTok(o1), Num(b), RParen, OpTok(o2), LParen, Num(c), OpTok(o3), Num(d), RParen]
    ensures Tokens(ShapeExpr(LeftComb, a, b, c, d, o1, o2, o3))
         == [LParen, LParen, Num(a), OpTok(o1), Num(b), RParen, OpTok(o2), Num(c), RParen, OpTok(o3), Num(d)]
    ensures Tokens(ShapeExpr(RightComb, a, b, c, d, o1, o2, o3))
         == [Num(a), OpTok(o1), LParen, Num(b), OpTok(o2), LParen, Num(c), OpTok(o3), Num(d), RParen, RParen]
  {
    BalancedTokens(a, b, c, d, o1, o2, o3);
    LeftCombTokens(a, b, c, d, o1, o2, o3);
    RightCombTokens(a, b, c, d, o1, o2, o3);
  }

  /** `(a o1 b) o2 (c o3 d)`. */
  lemma BalancedTokens(a: int, b: int, c: int, d: int, o1: Op, o2: Op, o3: Op)
    ensures Tokens(Bin(o2, Bin(o1, Lit(a), Lit(b)), Bin(o3, Lit(c), Lit(d))))
         == [LParen, Num(a), OpTok(o1), Num(b), RParen, OpTok(o2), LParen, Num(c), OpTok(o3), Num(d), RParen]
  {
    PairTokens(a, b, o1);
    PairTokens(c, d, o3);
  }

  /** `((a o1 b) o2 c) o3 d`. */
  lemma LeftCombTokens(a: int, b: int, c: int, d: int, o1: Op, o2: Op, o3: Op)
    ensures Tokens(Bin(o3, Bin(o2, Bin(o1, Lit(a), Lit(b)), Lit(c)), Lit(d)))
         == [LParen, LParen, Num(a), OpTok(o1), Num(b), RParen, OpTok(o2), Num(c), RParen, OpTok(o3), Num(d)]
  {
    PairTokens(a, b, o1);
    var inner := Bin(o2, Bin(o1, Lit(a), Lit(b)), Lit(c));
    assert Tokens(inner) == [LParen, Num(a), OpTok(o1), Num(b), RParen, OpTok(o2), Num(c)];
    assert Group(inner) == [LParen] + Tokens(inner) + [RParen];
  }

  /** `a o1 (b o2 (c o3 d))`. */
  lemma RightCombTokens(a: int, b: int, c: int, d: int, o1: Op, o2: Op, o3: Op)
    ensures Tokens(Bin(o1, Lit(a), Bin(o2, Lit(b), Bin(o3, Lit(c), Lit(d)))))
         == [Num(a), OpTok(o1), LParen, Num(b), OpTok(o2), LParen, Num(c), OpTok(o3), Num(d), RParen, RParen]
  {
    PairTokens(c, d, o3);
    var inner := Bin(o2, Lit(b), Bin(o3, Lit(c), Lit(d)));
    assert Group(Lit(a)) == [Num(a)] && Group(Lit(b)) == [Num(b)];
    assert Tokens(inner) == [Num(b)] + [OpTok(o2)] + [LParen, Num(c), OpTok(o3), Num(d), RParen];
    assert Group(inner) == [LParen] + Tokens(inner) + [RParen];
    assert Tokens(Bin(o1, Lit(a), inner)) == [Num(a)] + [OpTok(o1)] + Group(inner);
  }

  /** `x o y` prints as three tokens, and in parentheses as five. */
  lemma PairTokens(x: int, y: int, o: Op)
    ensures Tokens(Bin(o, Lit(x), Lit(y))) == [Num(x), OpTok(o), Num(y)]
    ensures Group(Bin(o, Lit(x), Lit(y))) == [LParen, Num(x), OpTok(o), Num(y), RParen]
  {
    assert Group(Lit(x)) == [Num(x)] && Group(Lit(y)) == [Num(y)];
  }

  lemma ShuntAllAppend(st: Shunt, xs: seq<Token>, ys: seq<Token>)
    ensures ShuntAll(st, xs + ys) == ShuntAll(ShuntAll(st, xs), ys)
    decreases |xs|
  {
    if xs == [] {
      assert xs + ys == ys;
    } else {
      assert (xs + ys)[0] == xs[0] && (xs + ys)[1..] == xs[1..] + ys;
      ShuntAllAppend(ShuntStep(st, xs[0]), xs[1..], ys);
    }
  }

  lemma ShuntAllSingle(st: Shunt, t: Token)
    ensures ShuntAll(st, [t]) == ShuntStep(st, t)
  {
    assert [t][1..] == [];
  }

  /** A printed operand adds its postfix form to the output and leaves the operator stack as it was. */
  lemma {:induction false} GroupShunts(e: Expr, st: Shunt)
    ensures ShuntAll(st, Group(e)) == Shunt(st.output + PostfixOf(e), st.ops)
    decreases e, 1
  {
    match e
    case Lit(n) =>
      ShuntAllSingle(st, Num(n));
    case Bin(o, l, r) =>
      var s1 := ShuntStep(st, LParen);
      assert s1 == Shunt(st.output, st.ops + [Open]);
      ShuntAllSingle(st, LParen);
      TokensShunt(e, s1);
      var s2 := Shunt(st.output + PostfixOf(l) + PostfixOf(r), st.ops + [Open] + [Pend(o)]);
      assert PopToOpen(s2) == Shunt(st.output + PostfixOf(e), st.ops + [Open]) by {
        assert (st.ops + [Open] + [Pend(o)])[..|st.ops| + 1] == st.ops + [Open];
      }
      ShuntAllSingle(s2, RParen);
      assert (st.ops + [Open])[..|st.ops|] == st.ops;
      ShuntAllAppend(st, [LParen], Tokens(e));
      ShuntAllAppend(st, [LParen] + Tokens(e), [RParen]);
  }

  /**
   * The printed tokens of a compound tree, met with '(' or nothing on top of the
   * operator stack, output both operands' postfix forms and leave the tree's
   * operator pending: precedence is never consulted.
   */
  lemma {:induction false} TokensShunt(e: Expr, st: Shunt)
    requires e.Bin?
    requires |st.ops| == 0 || st.ops[|st.ops| - 1] == Open
    ensures ShuntAll(st, Tokens(e))
         == Shunt(st.output + PostfixOf(e.left) + PostfixOf(e.right), st.ops + [Pend(e.op)])
    decreases e, 0
  {
    var Bin(o, l, r) := e;
    GroupShunts(l, st);
    var s1 := Shunt(st.output + PostfixOf(l), st.ops);
    assert PopBinding(s1, o) == s1;
    ShuntAllSingle(s1, OpTok(o));
    var s2 := Shunt(st.output + PostfixOf(l), st.ops + [Pend(o)]);
    GroupShunts(r, s2);
    ShuntAllAppend(st, Group(l), [OpTok(o)]);
    ShuntAllAppend(st, Group(l) + [OpTok(o)], Group(r));
  }

  /** infixToPostfix of a printed tree is the tree's postfix form. */
  lemma {:induction false} ToPostfixOfTokens(e: Expr)
    ensures ToPostfix(Tokens(e)) == PostfixOf(e)
  {
    match e
    case Lit(n) =>
      ShuntAllSingle(Shunt([], []), Num(n));
    case Bin(o, l, r) =>
      TokensShunt(e, Shunt([], []));
      var st := Shunt(PostfixOf(l) + PostfixOf(r), [Pend(o)]);
      assert ShuntAll(Shunt([], []), Tokens(e)) == st;
      assert MoveTop(st) == Shunt(PostfixOf(e), []);
      assert Drain(st) == Drain(MoveTop(st));
  }

  lemma EvalFromAppend(stack: seq<Value>, xs: seq<Token>, ys: seq<Token>)
    ensures EvalFrom(stack, xs + ys)
         == match EvalFrom(stack, xs)
            case Thrown(x) => Thrown(x)
            case Running(s) => EvalFrom(s, ys)
    decreases |xs|
  {
    if xs == [] {
      assert xs + ys == ys;
    } else {
      assert (xs + ys)[0] == xs[0] && (xs + ys)[1..] == xs[1..] + ys;
      match EvalStep(stack, xs[0])
      case Thrown(_) =>
      case Running(s) => EvalFromAppend(s, xs[1..], ys);
    }
  }

  /** Evaluating a tree's postfix form pushes the tree's value, or throws the tree's error. */
  lemma {:induction false} EvalPostfixOf(e: Expr, stack: seq<Value>)
    ensures EvalFrom(stack, PostfixOf(e))
         == match EvalExpr(e)
            case Ok(v) => Running(stack + [v])
            case Err(x) => Thrown(x)
  {
    match e
    case Lit(n) =>
      assert [Num(n)][1..] == [];
    case Bin(o, l, r) =>
      EvalPostfixOf(l, stack);
      EvalFromAppend(stack, PostfixOf(l), PostfixOf(r) + [OpTok(o)]);
      assert PostfixOf(e) == PostfixOf(l) + (PostfixOf(r) + [OpTok(o)]);
      match EvalExpr(l)
      case Err(_) =>
      case Ok(a) =>
        EvalPostfixOf(r, stack + [a]);
        EvalFromAppend(stack + [a], PostfixOf(r), [OpTok(o)]);
        match EvalExpr(r)
        case Err(_) =>
        case Ok(b) =>
          var s := stack + [a] + [b];
          assert Top(s) == b && Popped(s) == stack + [a];
          assert Top(Popped(s)) == a && Popped(Popped(s)) == stack;
          assert [OpTok(o)][1..] == [];
  }

  /**
   * The solver's evaluation of a printed tree (conversion, then the stack
   * evaluator) agrees with direct evaluation of the tree.
   */
  lemma EvalTokensMatchesTree(e: Expr)
    ensures EvalTokens(Tokens(e)) == EvalExpr(e)
  {
    ToPostfixOfTokens(e);
    EvalPostfixOf(e, []);
  }

  /** The state after `a o1 b`: two numbers out, `o1` pending. */
  lemma ShuntThreeTokens(a: int, b: int, o1: Op)
    ensures ShuntAll(Shunt([], []), [Num(a), OpTok(o1), Num(b)]) == Shunt([Num(a), Num(b)], [Pend(o1)])
  {
    assert [Num(a), OpTok(o1), Num(b)] == [Num(a)] + [OpTok(o1)] + [Num(b)];
    ShuntAllAppend(Shunt([], []), [Num(a)] + [OpTok(o1)], [Num(b)]);
    ShuntAllAppend(Shunt([], []), [Num(a)], [OpTok(o1)]);
    ShuntAllSingle(Shunt([], []), Num(a));
    ShuntAllSingle(Shunt([Num(a)], []), OpTok(o1));
    assert PopBinding(Shunt([Num(a)], []), o1) == Shunt([Num(a)], []);
    ShuntAllSingle(Shunt([Num(a)], [Pend(o1)]), Num(b));
  }

  /** The drained output once `o2` and `c` have been read after `a o1 b`. */
  lemma DrainAfterSecondOperator(a: int, b: int, c: int, o1: Op, o2: Op)
    ensures Drain(ShuntStep(ShuntStep(Shunt([Num(a), Num(b)], [Pend(o1)]), OpTok(o2)), Num(c)))
         == if Prec(o1) >= Prec(o2) then [Num(a), Num(b), OpTok(o1), Num(c), OpTok(o2)]
            else [Num(a), Num(b), Num(c), OpTok(o2), OpTok(o1)]
  {
    var s3 := Shunt([Num(a), Num(b)], [Pend(o1)]);
    var s5 := ShuntStep(ShuntStep(s3, OpTok(o2)), Num(c));
    if Prec(o1) >= Prec(o2) {
      assert PopBinding(MoveTop(s3), o2) == MoveTop(s3);
      assert s5 == Shunt([Num(a), Num(b), OpTok(o1), Num(c)], [Pend(o2)]);
      assert Drain(s5) == Drain(MoveTop(s5));
    } else {
      assert PopBinding(s3, o2) == s3;
      assert s5 == Shunt([Num(a), Num(b), Num(c)], [Pend(o1), Pend(o2)]);
      var s6 := MoveTop(s5);
      assert s6 == Shunt([Num(a), Num(b), Num(c), OpTok(o2)], [Pend(o1)]);
      assert Drain(s5) == Drain(s6) == Drain(MoveTop(s6));
    }
  }

  /**
   * Without parentheses precedence decides: `a o1 b o2 c` groups to the left
   * unless `o2` binds more tightly than `o1`.
   */
  lemma PrecedenceOfTwoOperators(a: int, b: int, c: int, o1: Op, o2: Op)
    ensures ToPostfix([Num(a), OpTok(o1), Num(b), OpTok(o2), Num(c)])
         == if Prec(o1) >= Prec(o2) then [Num(a), Num(b), OpTok(o1), Num(c), OpTok(o2)]
            else [Num(a), Num(b), Num(c), OpTok(o2), OpTok(o1)]
  {
    var first := [Num(a), OpTok(o1), Num(b)];
    var s3 := Shunt([Num(a), Num(b)], [Pend(o1)]);
    ShuntThreeTokens(a, b, o1);
    var s4 := ShuntStep(s3, OpTok(o2));
    assert [Num(a), OpTok(o1), Num(b), OpTok(o2), Num(c)] == first + [OpTok(o2)] + [Num(c)];
    ShuntAllAppend(Shunt([], []), first + [OpTok(o2)], [Num(c)]);
    ShuntAllAppend(Shunt([], []), first, [OpTok(o2)]);
    ShuntAllSingle(s3, OpTok(o2));
    ShuntAllSingle(s4, Num(c));
    DrainAfterSecondOperator(a, b, c, o1, o2);
  }
}
