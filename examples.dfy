/** How the evaluator reads particular shapes of line: precedence and
    associativity stated for any numeric tokens and then for a concrete
    line, and the quirks of `eval_expr` (operator runs, an unmatched `)`,
    the top of the value stack as the result). */
module Examples {
  import opened Common
  import opened Numbers
  import opened Evaluator
  import opened EvaluatorFacts
  import opened Grammar

  lemma Number(s: string, v: real)
    requires |s| > 0 && AllDigits(s) && DigitsValue(s) as real == v
    ensures ParseNum(s) == Some(v)
  {
    DigitStringParses(s);
  }

  lemma EvalLiteral(t: string, x: real, vars: Env)
    requires ParseNum(t) == Some(x)
    ensures Eval(Literal(t), vars) == Ok(x)
  {
  }

  lemma EvalBinary(op: string, l: Expr, r: Expr, vars: Env, u: real, v: real)
    requires Eval(l, vars) == Ok(u) && Eval(r, vars) == Ok(v)
    ensures Eval(Binary(op, l, r), vars) == Arith(op, u, v)
  {
  }

  lemma SpellRightChain(a: string, op1: string, b: string, op2: string, c: string)
    ensures Spelled(Binary(op1, Literal(a), Binary(op2, Literal(b), Literal(c)))) == [a, op1, b, op2, c]
  {
    assert Spelled(Binary(op2, Literal(b), Literal(c))) == [b, op2, c];
    assert [a] + [op1] + [b, op2, c] == [a, op1, b, op2, c];
  }

  lemma SpellLeftChain(a: string, op1: string, b: string, op2: string, c: string)
    ensures Spelled(Binary(op2, Binary(op1, Literal(a), Literal(b)), Literal(c))) == [a, op1, b, op2, c]
  {
    assert Spelled(Binary(op1, Literal(a), Literal(b))) == [a, op1, b];
    assert [a, op1, b] + [op2] + [c] == [a, op1, b, op2, c];
  }

  lemma SpellGroupFirst(a: string, op1: string, b: string, op2: string, c: string)
    ensures Spelled(Binary(op2, Group(Binary(op1, Literal(a), Literal(b))), Literal(c))) == ["(", a, op1, b, ")", op2, c]
  {
    assert Spelled(Binary(op1, Literal(a), Literal(b))) == [a, op1, b];
    assert Spelled(Group(Binary(op1, Literal(a), Literal(b)))) == ["(", a, op1, b, ")"];
    assert ["(", a, op1, b, ")"] + [op2] + [c] == ["(", a, op1, b, ")", op2, c];
  }

  /** `a + b * c` is read as `a + (b * c)`. */
  lemma ProductFirst(a: string, b: string, c: string, vars: Env)
    requires ParseNum(a).Some? && ParseNum(b).Some? && ParseNum(c).Some? && NoOperatorNames(vars)
    ensures Evaluate([a, "+", b, "*", c], vars) == Eval(Binary("+", Literal(a), Binary("*", Literal(b), Literal(c))), vars)
  {
    OperatorTable();
    SpellRightChain(a, "+", b, "*", c);
    EvaluateSpelled(Binary("+", Literal(a), Binary("*", Literal(b), Literal(c))), vars);
  }

  /** `a - b - c` is read as `(a - b) - c`. */
  lemma LeftToRight(a: string, b: string, c: string, vars: Env)
    requires ParseNum(a).Some? && ParseNum(b).Some? && ParseNum(c).Some? && NoOperatorNames(vars)
    ensures Evaluate([a, "-", b, "-", c], vars) == Eval(Binary("-", Binary("-", Literal(a), Literal(b)), Literal(c)), vars)
  {
    OperatorTable();
    SpellLeftChain(a, "-", b, "-", c);
    EvaluateSpelled(Binary("-", Binary("-", Literal(a), Literal(b)), Literal(c)), vars);
  }

  lemma GroupedSumGrammatical(a: string, b: string, c: string)
    requires ParseNum(a).Some? && ParseNum(b).Some? && ParseNum(c).Some?
    ensures Grammatical(Binary("*", Group(Binary("+", Literal(a), Literal(b))), Literal(c)))
  {
    var sum := Binary("+", Literal(a), Literal(b));
    assert Precedence("+") == 1 && Precedence("*") == 2;
    assert Grammatical(Literal(a)) && Grammatical(Literal(b)) && Grammatical(Literal(c));
    assert Grammatical(sum);
    assert Grammatical(Group(sum)) && Binding(Group(sum)) == 3;
  }

  /** `(a + b) * c` is read with the sum first. */
  lemma GroupFirst(a: string, b: string, c: string, vars: Env)
    requires ParseNum(a).Some? && ParseNum(b).Some? && ParseNum(c).Some? && NoOperatorNames(vars)
    ensures Evaluate(["(", a, "+", b, ")", "*", c], vars)
      == Eval(Binary("*", Group(Binary("+", Literal(a), Literal(b))), Literal(c)), vars)
  {
    GroupedSumGrammatical(a, b, c);
    SpellGroupFirst(a, "+", b, "*", c);
    EvaluateSpelled(Binary("*", Group(Binary("+", Literal(a), Literal(b))), Literal(c)), vars);
  }

  /** `2+3*4` is 14 for any variables, none named `+ - * / ( )`. */
  lemma ProductFirstLine(vars: Env)
    requires NoOperatorNames(vars)
    ensures Evaluate(["2", "+", "3", "*", "4"], vars) == Ok(14.0)
  {
    Number("2", 2.0);
    Number("3", 3.0);
    Number("4", 4.0);
    ProductFirst("2", "3", "4", vars);
    EvalLiteral("2", 2.0, vars);
    EvalLiteral("3", 3.0, vars);
    EvalLiteral("4", 4.0, vars);
    ArithProduct(3.0, 4.0);
    EvalBinary("*", Literal("3"), Literal("4"), vars, 3.0, 4.0);
    EvalBinary("+", Literal("2"), Binary("*", Literal("3"), Literal("4")), vars, 2.0, 12.0);
  }

  /** `(2+3)*4` is 20 for any variables, none named `+ - * / ( )`. */
  lemma GroupFirstLine(vars: Env)
    requires NoOperatorNames(vars)
    ensures Evaluate(["(", "2", "+", "3", ")", "*", "4"], vars) == Ok(20.0)
  {
    Number("2", 2.0);
    Number("3", 3.0);
    Number("4", 4.0);
    GroupFirst("2", "3", "4", vars);
    EvalLiteral("2", 2.0, vars);
    EvalLiteral("3", 3.0, vars);
    EvalLiteral("4", 4.0, vars);
    EvalBinary("+", Literal("2"), Literal("3"), vars, 2.0, 3.0);
    assert Eval(Group(Binary("+", Literal("2"), Literal("3"))), vars) == Ok(5.0);
    ArithProduct(5.0, 4.0);
    EvalBinary("*", Group(Binary("+", Literal("2"), Literal("3"))), Literal("4"), vars, 5.0, 4.0);
  }

  /** `10-2-3` is 5 for any variables, none named `+ - * / ( )`. */
  lemma LeftToRightLine(vars: Env)
    requires NoOperatorNames(vars)
    ensures Evaluate(["10", "-", "2", "-", "3"], vars) == Ok(5.0)
  {
    Number("10", 10.0);
    Number("2", 2.0);
    Number("3", 3.0);
    LeftToRight("10", "2", "3", vars);
    EvalLiteral("10", 10.0, vars);
    EvalLiteral("2", 2.0, vars);
    EvalLiteral("3", 3.0, vars);
    EvalBinary("-", Literal("10"), Literal("2"), vars, 10.0, 2.0);
    EvalBinary("-", Binary("-", Literal("10"), Literal("2")), Literal("3"), vars, 8.0, 3.0);
  }

  /** A single token: a number is read as a number even when a variable
      of that name exists; any other token is looked up. */
  lemma SingleToken(t: string, vars: Env)
    ensures ParseNum(t).Some? ==> Evaluate([t], vars) == Ok(ParseNum(t).value)
    ensures ParseNum(t).None? && t in vars ==> Evaluate([t], vars) == Ok(vars[t])
  {
    var st := Step(t, vars, Stacks([], []));
    assert Run([t], vars, Stacks([], [])) == st;
  }

  /** `3` is 3 even when a variable `3` holds 7 (only an assignment line
      `3 = 7` can create one). */
  lemma NumberShadowsVariableLine()
    ensures Evaluate(["3"], map["3" := 7.0]) == Ok(3.0)
  {
    Number("3", 3.0);
    SingleToken("3", map["3" := 7.0]);
  }

  lemma StepNumber(t: string, x: real, vars: Env, values: seq<real>, ops: seq<string>)
    requires ParseNum(t) == Some(x)
    ensures Step(t, vars, Stacks(values, ops)) == Ok(Stacks(values + [x], ops))
  {
  }

  lemma RunStep(t: string, rest: seq<string>, vars: Env, st: Stacks, next: Stacks)
    requires Step(t, vars, st) == Ok(next)
    ensures Run([t] + rest, vars, st) == Run(rest, vars, next)
  {
    assert ([t] + rest)[0] == t && ([t] + rest)[1..] == rest;
  }

  /** Nothing to evaluate, or an operator with one operand: `Invalid
      expression`. */
  lemma MissingOperand(a: string, op: string, vars: Env)
    requires ParseNum(a).Some? && IsArithmetic(op) && NoOperatorNames(vars)
    ensures Evaluate([], vars) == Err(InvalidExpression)
    ensures Evaluate([a, op], vars) == Err(InvalidExpression)
  {
    var x := ParseNum(a).value;
    var s1 := Stacks([x], []);
    var s2 := Stacks([x], [op]);
    StepNumber(a, x, vars, [], []);
    assert [] + [x] == [x];
    RunStep(a, [op], vars, Stacks([], []), s1);
    StepOperator(op, vars, s1);
    RunSingle(op, vars, s1);
    assert [a, op] == [a] + [op];
    assert Drain(s2) == Err(InvalidExpression);
  }

  /** An operator run over one value is pushed with precedence 0: the
      operator loop pops nothing. */
  lemma StepOperatorRun(t: string, vars: Env, x: real)
    requires ParseNum(t).None? && IsOperatorText(t) && |t| >= 2 && t !in vars
    ensures Step(t, vars, Stacks([x], [])) == Ok(Stacks([x], [t]))
  {
    assert t != "(" && t != ")";
    assert Reduce(Stacks([x], []), Precedence(t)) == Ok(Stacks([x], []));
    assert [] + [t] == [t];
  }

  /** Applying an operator run fails. */
  lemma DrainOperatorRun(t: string, x: real, y: real)
    requires |t| >= 2
    ensures Drain(Stacks([x, y], [t])) == Err(UnknownOperator)
  {
    assert !IsArithmetic(t);
    assert Arith(t, x, y) == Err(UnknownOperator);
    assert ApplyOp([x, y], t) == Err(UnknownOperator);
  }

  /** A run whose final loop fails evaluates to that failure. */
  lemma FinishedWithError(tokens: seq<string>, vars: Env, st: Stacks, e: Error)
    requires Run(tokens, vars, Stacks([], [])) == Ok(st) && Drain(st) == Err(e)
    ensures Evaluate(tokens, vars) == Err(e)
  {
  }

  /** A run of operator characters such as `+-` passes the operator test
      and is pushed, with precedence 0; applying it fails with `Unknown
      operator`. */
  lemma OperatorRun(a: string, t: string, b: string, vars: Env)
    requires ParseNum(a).Some? && ParseNum(b).Some? && ParseNum(t).None?
    requires IsOperatorText(t) && |t| >= 2 && t !in vars
    ensures Evaluate([a, t, b], vars) == Err(UnknownOperator)
  {
    var x := ParseNum(a).value;
    var y := ParseNum(b).value;
    assert [a, t, b] == [a] + ([t] + [b]);
    RunNumber(a, x, [t] + [b], vars, [], []);
    assert [] + [x] == [x];
    StepOperatorRun(t, vars, x);
    RunStep(t, [b], vars, Stacks([x], []), Stacks([x], [t]));
    assert [b] == [b] + [];
    RunNumber(b, y, [], vars, [x], [t]);
    assert [x] + [y] == [x, y];
    DrainOperatorRun(t, x, y);
    FinishedWithError([a, t, b], vars, Stacks([x, y], [t]), UnknownOperator);
  }

  /** The token list `1`, `+-`, `2` fails with `Unknown operator`. The
      tokenizer never produces it (it cuts `1+-2` into `1`, `+`, `-`, `2`,
      see `DoubledOperator`); it shows what the substring test would do with
      such a run. */
  lemma OperatorRunLine()
    ensures Evaluate(["1", "+-", "2"], map[]) == Err(UnknownOperator)
  {
    Number("1", 1.0);
    Number("2", 2.0);
    if ParseNum("+-").Some? {
      ParsedHasDigit("+-");
    }
    assert "+-" <= "+-*/";
    OperatorRun("1", "+-", "2", map[]);
  }

  /** Two operators in a row, the second binding no more tightly than the
      first: the second one's operator loop applies the first to a single
      value, so the line fails with `Invalid expression`. This is how the
      tokens `1`, `+`, `-`, `2` of the line `1+-2` end: there is no unary
      minus. */
  lemma DoubledOperator(a: string, op1: string, op2: string, b: string, vars: Env)
    requires ParseNum(a).Some? && IsArithmetic(op1) && IsArithmetic(op2)
    requires Precedence(op1) >= Precedence(op2) && NoOperatorNames(vars)
    ensures Evaluate([a, op1, op2, b], vars) == Err(InvalidExpression)
  {
    var x := ParseNum(a).value;
    var s1 := Stacks([x], []);
    var s2 := Stacks([x], [op1]);
    assert [a, op1, op2, b] == [a] + ([op1] + [op2, b]);
    RunNumber(a, x, [op1] + [op2, b], vars, [], []);
    assert [] + [x] == [x];
    StepOperator(op1, vars, s1);
    assert Reduce(s1, Precedence(op1)) == Ok(s1);
    assert [] + [op1] == [op1];
    RunStep(op1, [op2, b], vars, s1, s2);
    StepOperator(op2, vars, s2);
    assert ApplyOp([x], op1) == Err(InvalidExpression);
    assert Reduce(s2, Precedence(op2)) == Err(InvalidExpression);
    assert [op2, b][0] == op2;
  }

  /** Reading a number and then an operator from empty stacks pushes both. */
  lemma RunNumberThenOperator(a: string, op: string, rest: seq<string>, vars: Env)
    requires ParseNum(a).Some? && IsArithmetic(op) && NoOperatorNames(vars)
    ensures Run([a, op] + rest, vars, Stacks([], [])) == Run(rest, vars, Stacks([ParseNum(a).value], [op]))
  {
    var x := ParseNum(a).value;
    var s1 := Stacks([x], []);
    assert [a, op] + rest == [a] + ([op] + rest);
    RunNumber(a, x, [op] + rest, vars, [], []);
    assert [] + [x] == [x];
    StepOperator(op, vars, s1);
    assert Reduce(s1, Precedence(op)) == Ok(s1);
    assert [] + [op] == [op];
    RunStep(op, rest, vars, s1, Stacks([x], [op]));
  }

  /** Reading `a op ( b` leaves both values and both `op` and `(` on the
      stacks. */
  lemma RunUnclosed(a: string, x: real, op: string, b: string, y: real, vars: Env)
    requires ParseNum(a) == Some(x) && ParseNum(b) == Some(y)
    requires IsArithmetic(op) && NoOperatorNames(vars)
    ensures Run([a, op, "(", b], vars, Stacks([], [])) == Ok(Stacks([x, y], [op, "("]))
  {
    assert [a, op, "(", b] == [a, op] + (["("] + [b]);
    RunNumberThenOperator(a, op, ["("] + [b], vars);
    RunAfterOpen([b], vars, [x], [op]);
    assert [op] + ["("] == [op, "("];
    assert [b] == [b] + [];
    RunNumber(b, y, [], vars, [x], [op, "("]);
    assert [x] + [y] == [x, y];
  }

  /** The final loop pops `(` first and cannot apply it. */
  lemma DrainOpenParen(x: real, y: real, op: string)
    ensures Drain(Stacks([x, y], [op, "("])) == Err(UnknownOperator)
  {
    assert Arith("(", x, y) == Err(UnknownOperator);
    assert ApplyOp([x, y], "(") == Err(UnknownOperator);
  }

  /** A `(` never closed is popped by the final loop and applied like an
      operator, which fails: `2*(3` ends with `Unknown operator`. */
  lemma UnclosedParen(a: string, op: string, b: string, vars: Env)
    requires ParseNum(a).Some? && ParseNum(b).Some? && IsArithmetic(op) && NoOperatorNames(vars)
    ensures Evaluate([a, op, "(", b], vars) == Err(UnknownOperator)
  {
    var x := ParseNum(a).value;
    var y := ParseNum(b).value;
    var st := Stacks([x, y], [op, "("]);
    RunUnclosed(a, x, op, b, y, vars);
    DrainOpenParen(x, y, op);
    FinishedWithError([a, op, "(", b], vars, st, UnknownOperator);
  }

  lemma RunNumber(t: string, x: real, rest: seq<string>, vars: Env, values: seq<real>, ops: seq<string>)
    requires ParseNum(t) == Some(x)
    ensures Run([t] + rest, vars, Stacks(values, ops)) == Run(rest, vars, Stacks(values + [x], ops))
  {
    StepNumber(t, x, vars, values, ops);
    RunStep(t, rest, vars, Stacks(values, ops), Stacks(values + [x], ops));
  }

  /** A `)` without its `(` is not an error: after any well-formed
      expression it applies the pending operators, so `a+b)` is `a + b`. */
  lemma UnmatchedCloseAtEnd(e: Expr, vars: Env)
    requires Grammatical(e) && NoOperatorNames(vars)
    ensures Evaluate(Spelled(e) + [")"], vars) == Eval(e, vars)
  {
    RunSpelled(e, vars, [], []);
    if Run(Spelled(e), vars, Stacks([], [])).Ok? {
      var st := Run(Spelled(e), vars, Stacks([], [])).value;
      assert st.ops[0..] == st.ops;
      assert NoOpenParen(st.ops);
    }
    TrailingCloseIgnored(Spelled(e), vars);
    EvaluateSpelled(e, vars);
  }

  /** Pending operators bind at most as tightly as `*` and `/`. */
  lemma PendingBound(pend: seq<string>, m: int)
    requires Pending(pend, m) && pend != []
    ensures m <= 2
  {
    assert Precedence(pend[0]) <= 2;
  }

  /** So no operator is pending above a parenthesised group. */
  lemma PendingAboveGroupEmpty(pend: seq<string>)
    requires Pending(pend, 3)
    ensures pend == []
  {
    if pend != [] {
      PendingBound(pend, 3);
      assert false;
    }
  }

  /** After a parenthesised group, the stacks hold exactly one more value. */
  lemma GroupPushes(res: Result<Stacks>, ops: seq<string>, values: seq<real>, v: Result<real>)
    requires Pushes(res, ops, 3, values, v)
    ensures res.Ok? ==> v.Ok? && res.value == Stacks(values + [v.value], ops)
    ensures res.Err? ==> v == Err(res.error)
  {
    if res.Ok? {
      var st := res.value;
      PendingAboveGroupEmpty(st.ops[|ops|..]);
      assert st.ops == st.ops[..|ops|] + st.ops[|ops|..];
    }
  }

  /** The value returned is the top of the value stack, whatever lies
      below it: `(a)(b)` is `b`, once `a` evaluates. */
  lemma TopOfStack(e1: Expr, e2: Expr, vars: Env)
    requires Grammatical(e1) && Grammatical(e2) && NoOperatorNames(vars)
    requires Eval(e1, vars).Ok?
    ensures Evaluate(Spelled(Group(e1)) + Spelled(Group(e2)), vars) == Eval(e2, vars)
  {
    var v1 := Eval(e1, vars).value;
    var t1 := ["("] + Spelled(e1) + [")"];
    var t2 := ["("] + Spelled(e2) + [")"];
    RunGroup(e1, vars, [], []);
    GroupPushes(Run(t1, vars, Stacks([], [])), [], [], Eval(e1, vars));
    assert [] + [v1] == [v1];
    RunGroup(e2, vars, [v1], []);
    GroupPushes(Run(t2, vars, Stacks([v1], [])), [], [v1], Eval(e2, vars));
    RunAppend(t1, t2, vars, Stacks([], []));
    assert Spelled(Group(e1)) + Spelled(Group(e2)) == t1 + t2;
  }
}
