/** What the shunting-yard evaluator computes. An expression tree that
    respects the precedence of `* /` over `+ -` and the left associativity
    of operators of equal precedence is written out as tokens; the
    evaluator, run on those tokens, returns the value of the tree as the
    reference evaluator `Eval` defines it (operands left to right, then the
    operator, the first error winning). This is what `2+3*4` = 14,
    `(2+3)*4` = 20 and `10-2-3` = 5 are instances of. */
module Grammar {
  import opened Common
  import opened Numbers
  import opened Evaluator
  import opened EvaluatorFacts

  /** An infix expression: a number literal, a variable, a binary operation,
      or a parenthesised expression. */
  datatype Expr =
    | Literal(text: string)
    | Variable(name: string)
    | Binary(op: string, left: Expr, right: Expr)
    | Group(inner: Expr)

  /** The tokens that spell an expression. */
  function Spelled(e: Expr): seq<string> {
    match e
    case Literal(t) => [t]
    case Variable(n) => [n]
    case Binary(op, l, r) => Spelled(l) + [op] + Spelled(r)
    case Group(g) => ["("] + Spelled(g) + [")"]
  }

  /** How tightly an expression binds at its top level: the precedence of
      its operator, or 3 for a literal, variable or parenthesised group. */
  function Binding(e: Expr): int {
    match e
    case Binary(op, _, _) => Precedence(op)
    case _ => 3
  }

  /** The tree is the one the usual grammar gives for its tokens: literals
      parse as numbers, variable names are no number, parenthesis or
      operator text, and an operator's left operand binds at least as
      tightly as the operator and its right operand strictly more tightly. */
  predicate Grammatical(e: Expr) {
    match e
    case Literal(t) => ParseNum(t).Some?
    case Variable(n) => ParseNum(n).None? && n != "(" && n != ")" && !IsOperatorText(n)
    case Binary(op, l, r) =>
      IsArithmetic(op) && Grammatical(l) && Grammatical(r)
      && Binding(l) >= Precedence(op) && Binding(r) > Precedence(op)
    case Group(g) => Grammatical(g)
  }

  /** The reference evaluator on trees. */
  function Eval(e: Expr, vars: Env): Result<real> {
    match e
    case Literal(t) => if ParseNum(t).Some? then Ok(ParseNum(t).value) else Err(InvalidToken)
    case Variable(n) => if n in vars then Ok(vars[n]) else Err(InvalidToken)
    case Binary(op, l, r) =>
      (match Eval(l, vars)
       case Err(x) => Err(x)
       case Ok(a) =>
         match Eval(r, vars)
         case Err(x) => Err(x)
         case Ok(b) => Arith(op, a, b))
    case Group(g) => Eval(g, vars)
  }

  /** No variable is named like an operator or a parenthesis. (An
      assignment such as `( = 3` can create such a variable, and then `(`
      reads as a value.) */
  predicate NoOperatorNames(vars: Env) {
    "+" !in vars && "-" !in vars && "*" !in vars && "/" !in vars && "(" !in vars && ")" !in vars
  }

  /** Operators waiting on the operator stack above some position: all of
      them arithmetic, with precedence at least `m`. */
  predicate Pending(pend: seq<string>, m: int) {
    forall i :: 0 <= i < |pend| ==> IsArithmetic(pend[i]) && Precedence(pend[i]) >= m
  }

  /** Applies pending operators, top first, as the pop loops do. */
  function ApplyAll(values: seq<real>, pend: seq<string>): Result<seq<real>>
    decreases |pend|
  {
    if pend == [] then Ok(values)
    else
      match ApplyOp(values, Last(pend))
      case Err(e) => Err(e)
      case Ok(v) => ApplyAll(v, DropLast(pend))
  }

  /** The value stack with one more value pushed, or the error. */
  function Push(values: seq<real>, r: Result<real>): Result<seq<real>> {
    match r
    case Err(e) => Err(e)
    case Ok(v) => Ok(values + [v])
  }

  function WithOps(r: Result<seq<real>>, ops: seq<string>): Result<Stacks> {
    match r
    case Err(e) => Err(e)
    case Ok(values) => Ok(Stacks(values, ops))
  }

  lemma {:induction false} ApplyAllAppend(values: seq<real>, a: seq<string>, b: seq<string>)
    ensures ApplyAll(values, a + b) ==
      match ApplyAll(values, b)
      case Err(e) => Err(e)
      case Ok(w) => ApplyAll(w, a)
    decreases |b|
  {
    if b == [] {
      assert a + b == a;
    } else {
      assert Last(a + b) == Last(b) && DropLast(a + b) == a + DropLast(b);
      match ApplyOp(values, Last(b))
      case Err(e) =>
      case Ok(v) => ApplyAllAppend(v, a, DropLast(b));
    }
  }

  /** The operator loop, for an incoming operator of precedence `p`,
      applies exactly the pending operators of precedence at least `p`
      above an entry of lower precedence. */
  lemma {:induction false} ReducePending(values: seq<real>, base: seq<string>, pend: seq<string>, p: int)
    requires forall i :: 0 <= i < |pend| ==> Precedence(pend[i]) >= p
    requires base == [] || Precedence(Last(base)) < p
    ensures Reduce(Stacks(values, base + pend), p) == WithOps(ApplyAll(values, pend), base)
    decreases |pend|
  {
    if pend == [] {
      assert base + pend == base;
    } else {
      assert Last(base + pend) == Last(pend) && DropLast(base + pend) == base + DropLast(pend);
      match ApplyOp(values, Last(pend))
      case Err(e) =>
      case Ok(v) => ReducePending(v, base, DropLast(pend), p);
    }
  }

  /** The `)` loop applies the operators above the topmost `(` and drops it. */
  lemma {:induction false} CloseParenPending(values: seq<real>, base: seq<string>, pend: seq<string>)
    requires forall i :: 0 <= i < |pend| ==> pend[i] != "("
    ensures CloseParen(Stacks(values, base + ["("] + pend)) == WithOps(ApplyAll(values, pend), base)
    decreases |pend|
  {
    var ops := base + ["("] + pend;
    if pend == [] {
      assert ops == base + ["("] && Last(ops) == "(" && DropLast(ops) == base;
    } else {
      assert Last(ops) == Last(pend) && DropLast(ops) == base + ["("] + DropLast(pend);
      match ApplyOp(values, Last(pend))
      case Err(e) =>
      case Ok(v) => CloseParenPending(v, base, DropLast(pend));
    }
  }

  /** The final loop applies every pending operator. */
  lemma {:induction false} DrainPending(values: seq<real>, pend: seq<string>)
    ensures Drain(Stacks(values, pend)) == WithOps(ApplyAll(values, pend), [])
    decreases |pend|
  {
    if pend != [] {
      match ApplyOp(values, Last(pend))
      case Err(e) =>
      case Ok(v) => DrainPending(v, DropLast(pend));
    }
  }

  lemma {:induction false} BindingPositive(e: Expr)
    requires Grammatical(e)
    ensures Binding(e) >= 1
  {
  }

  lemma RunSingle(token: string, vars: Env, st: Stacks)
    ensures Run([token], vars, st) == Step(token, vars, st)
  {
    assert [token][1..] == [];
  }

  /** An operator token: the operator loop, then the push. */
  lemma StepOperator(op: string, vars: Env, st: Stacks)
    requires IsArithmetic(op) && NoOperatorNames(vars)
    ensures Step(op, vars, st) ==
      match Reduce(st, Precedence(op))
      case Err(e) => Err(e)
      case Ok(s) => Ok(Stacks(s.values, s.ops + [op]))
  {
    NotANumber(op);
    ArithmeticIsOperatorText(op);
  }

  /** A `(` token is pushed on the operator stack. */
  lemma StepOpen(vars: Env, st: Stacks)
    requires NoOperatorNames(vars)
    ensures Step("(", vars, st) == Ok(Stacks(st.values, st.ops + ["("]))
  {
    SymbolsAreNotNumbers();
  }

  /** A `)` token runs the `)` loop. */
  lemma StepClose(vars: Env, st: Stacks)
    requires NoOperatorNames(vars)
    ensures Step(")", vars, st) == CloseParen(st)
  {
    SymbolsAreNotNumbers();
  }

  /** The outcome of reading an expression's tokens on top of the operator
      stack `ops`: either the error `v` is, or `ops` is left in place with
      operators binding at least `m` pending above it which, once applied,
      push the value `v` onto `values`. */
  predicate Pushes(res: Result<Stacks>, ops: seq<string>, m: int, values: seq<real>, v: Result<real>) {
    match res
    case Err(x) => v == Err(x)
    case Ok(st) =>
      |st.ops| >= |ops| && st.ops[..|ops|] == ops && Pending(st.ops[|ops|..], m)
      && ApplyAll(st.values, st.ops[|ops|..]) == Push(values, v)
  }

  /** The invariant behind the evaluator: reading the tokens of a
      well-formed expression on top of an operator stack whose top binds
      more loosely than the expression either fails with the error the
      tree evaluation meets first, or leaves the operator stack as it was
      plus pending operators binding at least as tightly as the
      expression, which, once applied, push the expression's value. */
  lemma {:induction false} RunSpelled(e: Expr, vars: Env, values: seq<real>, ops: seq<string>)
    requires Grammatical(e) && NoOperatorNames(vars)
    requires ops == [] || Precedence(Last(ops)) < Binding(e)
    ensures Pushes(Run(Spelled(e), vars, Stacks(values, ops)), ops, Binding(e), values, Eval(e, vars))
    decreases e, 2
  {
    match e
    case Literal(t) =>
      RunSingle(t, vars, Stacks(values, ops));
    case Variable(n) =>
      RunSingle(n, vars, Stacks(values, ops));
    case Binary(op, l, r) =>
      RunBinary(op, l, r, vars, values, ops);
      assert Spelled(e) == Spelled(l) + [op] + Spelled(r);
    case Group(g) =>
      RunGroup(g, vars, values, ops);
      assert Spelled(e) == ["("] + Spelled(g) + [")"];
  }

  /** The left operand and the operator of a binary expression: the
      operand's pending operators are applied and the operator is pushed. */
  lemma {:induction false} RunLeftOperand(op: string, l: Expr, vars: Env, values: seq<real>, ops: seq<string>)
    requires IsArithmetic(op) && Grammatical(l) && Binding(l) >= Precedence(op) && NoOperatorNames(vars)
    requires ops == [] || Precedence(Last(ops)) < Precedence(op)
    ensures match Run(Spelled(l) + [op], vars, Stacks(values, ops))
      case Err(x) => Eval(l, vars) == Err(x)
      case Ok(s) => Eval(l, vars).Ok? && s == Stacks(values + [Eval(l, vars).value], ops + [op])
    decreases l, 3
  {
    var st0 := Stacks(values, ops);
    RunAppend(Spelled(l), [op], vars, st0);
    RunSpelled(l, vars, values, ops);
    LeftOperandThenOperator(op, l, vars, values, ops, Run(Spelled(l), vars, st0));
  }

  /** What the operator token does to the stacks the left operand left. */
  lemma LeftOperandThenOperator(op: string, l: Expr, vars: Env, values: seq<real>, ops: seq<string>, res: Result<Stacks>)
    requires IsArithmetic(op) && Binding(l) >= Precedence(op) && NoOperatorNames(vars)
    requires ops == [] || Precedence(Last(ops)) < Precedence(op)
    requires Pushes(res, ops, Binding(l), values, Eval(l, vars))
    ensures match RunOn(res, [op], vars)
      case Err(x) => Eval(l, vars) == Err(x)
      case Ok(s) => Eval(l, vars).Ok? && s == Stacks(values + [Eval(l, vars).value], ops + [op])
  {
    match res
    case Err(x) =>
    case Ok(s1) =>
      var pendL := s1.ops[|ops|..];
      assert s1.ops == ops + pendL;
      ReducePending(s1.values, ops, pendL, Precedence(op));
      RunSingle(op, vars, s1);
      StepOperator(op, vars, s1);
  }

  lemma {:induction false} RunBinary(op: string, l: Expr, r: Expr, vars: Env, values: seq<real>, ops: seq<string>)
    requires IsArithmetic(op) && Grammatical(l) && Grammatical(r) && NoOperatorNames(vars)
    requires Binding(l) >= Precedence(op) && Binding(r) > Precedence(op)
    requires ops == [] || Precedence(Last(ops)) < Precedence(op)
    ensures Pushes(Run(Spelled(l) + [op] + Spelled(r), vars, Stacks(values, ops)), ops, Precedence(op), values, Eval(Binary(op, l, r), vars))
    decreases Binary(op, l, r), 1
  {
    var st0 := Stacks(values, ops);
    RunAppend(Spelled(l) + [op], Spelled(r), vars, st0);
    RunLeftOperand(op, l, vars, values, ops);
    match Run(Spelled(l) + [op], vars, st0)
    case Err(x) =>
      assert Eval(l, vars) == Err(x);
    case Ok(s2) =>
      var a := Eval(l, vars).value;
      RunSpelled(r, vars, values + [a], ops + [op]);
      ComposeRight(op, l, r, vars, values, ops, a, Run(Spelled(r), vars, s2));
  }

  /** The stacks after the right operand, seen from below the operator:
      the operator is pending under the operand's own operators and, once
      applied, combines the two operands. */
  lemma ComposeRight(op: string, l: Expr, r: Expr, vars: Env, values: seq<real>, ops: seq<string>, a: real, res: Result<Stacks>)
    requires IsArithmetic(op) && Binding(r) > Precedence(op) && Eval(l, vars) == Ok(a)
    requires Pushes(res, ops + [op], Binding(r), values + [a], Eval(r, vars))
    ensures Pushes(res, ops, Precedence(op), values, Eval(Binary(op, l, r), vars))
  {
    match res
    case Err(x) =>
    case Ok(st) =>
      var pendR := st.ops[|ops| + 1..];
      SplitBelow(st.ops, ops, op);
      ApplyRightOperand(op, l, r, vars, values, a, st.values, pendR);
  }

  lemma SplitBelow(s: seq<string>, ops: seq<string>, op: string)
    requires |s| >= |ops| + 1 && s[..|ops| + 1] == ops + [op]
    ensures s[..|ops|] == ops && s[|ops|..] == [op] + s[|ops| + 1..]
  {
    assert s[..|ops|] == s[..|ops| + 1][..|ops|];
    assert s[|ops|..] == [s[|ops|]] + s[|ops| + 1..];
  }

  /** Once the right operand's pending operators are applied, the binary
      operator itself, just below them, combines the two operands. */
  lemma ApplyRightOperand(op: string, l: Expr, r: Expr, vars: Env, values: seq<real>, a: real, w: seq<real>, pendR: seq<string>)
    requires Eval(l, vars) == Ok(a)
    requires ApplyAll(w, pendR) == Push(values + [a], Eval(r, vars))
    ensures ApplyAll(w, [op] + pendR) == Push(values, Eval(Binary(op, l, r), vars))
  {
    ApplyAllAppend(w, [op], pendR);
    match Eval(r, vars)
    case Err(x) =>
    case Ok(b) =>
      ApplyPair(values, a, b, op);
  }

  /** Applying one operator to a stack ending in `a`, `b`. */
  lemma ApplyPair(values: seq<real>, a: real, b: real, op: string)
    ensures ApplyAll(values + [a] + [b], [op]) == Push(values, Arith(op, a, b))
  {
    var w := values + [a] + [b];
    assert w[..|w| - 2] == values && w[|w| - 2] == a && w[|w| - 1] == b;
    assert DropLast([op]) == [];
  }

  /** Reading `(` pushes it and goes on with what follows. */
  lemma RunAfterOpen(rest: seq<string>, vars: Env, values: seq<real>, ops: seq<string>)
    requires NoOperatorNames(vars)
    ensures Run(["("] + rest, vars, Stacks(values, ops)) == Run(rest, vars, Stacks(values, ops + ["("]))
  {
    var st0 := Stacks(values, ops);
    RunAppend(["("], rest, vars, st0);
    RunSingle("(", vars, st0);
    StepOpen(vars, st0);
  }

  /** Reading `)` runs the `)` loop. */
  lemma RunClose(vars: Env, st: Stacks)
    requires NoOperatorNames(vars)
    ensures Run([")"], vars, st) == CloseParen(st)
  {
    RunSingle(")", vars, st);
    StepClose(vars, st);
  }

  /** A parenthesised expression leaves the operator stack as it found it
      and pushes the value of its contents. */
  lemma {:induction false} RunGroup(g: Expr, vars: Env, values: seq<real>, ops: seq<string>)
    requires Grammatical(g) && NoOperatorNames(vars)
    ensures Pushes(Run(["("] + Spelled(g) + [")"], vars, Stacks(values, ops)), ops, 3, values, Eval(g, vars))
    decreases Group(g), 1
  {
    var st0 := Stacks(values, ops);
    RunAppend(["("] + Spelled(g), [")"], vars, st0);
    OpenGroup(g, vars, values, ops);
    CloseGroup(g, vars, values, ops, Run(["("] + Spelled(g), vars, st0));
  }

  /** The `(` of a group and its contents: the contents are read over the
      pushed `(`. */
  lemma {:induction false} OpenGroup(g: Expr, vars: Env, values: seq<real>, ops: seq<string>)
    requires Grammatical(g) && NoOperatorNames(vars)
    ensures Pushes(Run(["("] + Spelled(g), vars, Stacks(values, ops)), ops + ["("], Binding(g), values, Eval(g, vars))
    ensures Binding(g) >= 1
    decreases Group(g), 0
  {
    RunAfterOpen(Spelled(g), vars, values, ops);
    BindingPositive(g);
    RunSpelled(g, vars, values, ops + ["("]);
  }

  /** The `)` of a group applies what its contents left pending and drops
      the `(`. */
  lemma CloseGroup(g: Expr, vars: Env, values: seq<real>, ops: seq<string>, res: Result<Stacks>)
    requires NoOperatorNames(vars)
    requires Pushes(res, ops + ["("], Binding(g), values, Eval(g, vars)) && Binding(g) >= 1
    ensures Pushes(RunOn(res, [")"], vars), ops, 3, values, Eval(g, vars))
  {
    match res
    case Err(x) =>
    case Ok(s2) =>
      var pend := s2.ops[|ops| + 1..];
      assert s2.ops == ops + ["("] + pend;
      CloseParenPending(s2.values, ops, pend);
      RunClose(vars, s2);
      match Push(values, Eval(g, vars))
      case Err(x) =>
      case Ok(v) =>
        assert Run([")"], vars, s2) == Ok(Stacks(v, ops));
        assert Stacks(v, ops).ops[|ops|..] == [];
  }

  /** The evaluator computes the reference value of every well-formed
      expression: `eval_expr` on its tokens returns `Eval`, value or error. */
  lemma EvaluateSpelled(e: Expr, vars: Env)
    requires Grammatical(e) && NoOperatorNames(vars)
    ensures Evaluate(Spelled(e), vars) == Eval(e, vars)
  {
    RunSpelled(e, vars, [], []);
    match Run(Spelled(e), vars, Stacks([], []))
    case Err(x) =>
    case Ok(st) =>
      assert st.ops[0..] == st.ops;
      DrainPending(st.values, st.ops);
  }
}
