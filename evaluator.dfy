/** The expression evaluator of calculator.rs: `precedence` (82-88),
    `apply_operator` (90-109) and the shunting-yard loop `eval_expr`
    (39-80), which reads the tokens left to right over a value stack and an
    operator stack.

    The functions `Step`, `Reduce`, `CloseParen`, `Drain`, `Run` and
    `Evaluate` describe one token, one inner pop loop and the whole
    evaluation on the two stacks as values; the methods `ApplyOperator` and
    `EvalExpr` are the source's procedures, proved to compute them. */
module Evaluator {
  import opened Common
  import opened Numbers

  /** The variable map: name to last assigned value. */
  type Env = map<string, real>

  /** Rust's `str::contains` with a string pattern: `needle` occurs in
      `hay` as a contiguous substring. */
  predicate Contains(hay: string, needle: string)
    decreases |hay|
  {
    needle <= hay || (|hay| > 0 && Contains(hay[1..], needle))
  }

  // The operator test of `eval_expr` (calculator.rs:60): whether the token
  // is a substring of the four operator characters. So it also holds of
  // the empty string and of runs such as `+-` or `-*`, which the tokenizer
  // never produces.
  predicate IsOperatorText(token: string) {
    Contains("+-*/", token)
  }

  /** `precedence` (calculator.rs:82-88). */
  function Precedence(op: string): int {
    if op == "+" || op == "-" then 1
    else if op == "*" || op == "/" then 2
    else 0
  }

  /** The four arithmetic operators. */
  predicate IsArithmetic(op: string) {
    op == "+" || op == "-" || op == "*" || op == "/"
  }

  /** The `match op` of `apply_operator`: `a op b`, or its error. */
  function Arith(op: string, a: real, b: real): Result<real> {
    if op == "+" then Ok(a + b)
    else if op == "-" then Ok(a - b)
    else if op == "*" then Ok(a * b)
    else if op == "/" then (if b == 0.0 then Err(DivisionByZero) else Ok(a / b))
    else Err(UnknownOperator)
  }

  // The solver does not match a product of two stack elements against the
  // body of `Arith` by itself; this instance is stated for plain variables.
  lemma ArithProduct(a: real, b: real)
    ensures Arith("*", a, b) == Ok(a * b)
  {
  }

  /** `apply_operator` on the value stack as a value: replaces the top two
      values `a`, `b` (`b` on top) by `a op b`. */
  function ApplyOp(stack: seq<real>, op: string): Result<seq<real>> {
    if |stack| < 2 then Err(InvalidExpression)
    else
      var n := |stack|;
      match Arith(op, stack[n - 2], stack[n - 1])
      case Err(e) => Err(e)
      case Ok(x) => Ok(stack[..n - 2] + [x])
  }

  /** `apply_operator` (calculator.rs:90-109): pops `b`, then `a`, and pushes
      `a op b`. Returns the stack as the source leaves it: unchanged when
      there are fewer than two values, with both operands popped when the
      operator fails. */
  method ApplyOperator(stack: seq<real>, op: string) returns (stack': seq<real>, result: Result<()>)
    ensures |stack| < 2 ==> result == Err(InvalidExpression) && stack' == stack
    ensures |stack| >= 2 ==> |stack'| >= |stack| - 2 && stack'[..|stack| - 2] == stack[..|stack| - 2]
    ensures |stack| >= 2 && op == "/" && stack[|stack| - 1] == 0.0 ==>
      result == Err(DivisionByZero) && |stack'| == |stack| - 2
    ensures |stack| >= 2 && !IsArithmetic(op) ==> result == Err(UnknownOperator) && |stack'| == |stack| - 2
    ensures result.Ok? ==>
      |stack| >= 2 && |stack'| == |stack| - 1
      && Arith(op, stack[|stack| - 2], stack[|stack| - 1]) == Ok(stack'[|stack'| - 1])
    ensures result.Ok? <==> ApplyOp(stack, op).Ok?
    ensures result.Ok? ==> stack' == ApplyOp(stack, op).value
    ensures result.Err? ==> result.error == ApplyOp(stack, op).error
  {
    if |stack| < 2 {
      return stack, Err(InvalidExpression);
    }
    var b := Last(stack);
    stack' := DropLast(stack);
    var a := Last(stack');
    stack' := DropLast(stack');
    assert a == stack[|stack| - 2] && stack' == stack[..|stack| - 2];
    var x: real;
    if op == "+" {
      x := a + b;
    } else if op == "-" {
      x := a - b;
    } else if op == "*" {
      x := a * b;
      ArithProduct(a, b);
    } else if op == "/" {
      if b == 0.0 {
        return stack', Err(DivisionByZero);
      }
      x := a / b;
    } else {
      return stack', Err(UnknownOperator);
    }
    assert Arith(op, a, b) == Ok(x);
    stack' := stack' + [x];
    result := Ok(());
  }

  /** The two stacks of `eval_expr`: values, and pending operators and
      open parentheses. The top of each is its last element. */
  datatype Stacks = Stacks(values: seq<real>, ops: seq<string>)

  /** The `)` loop (calculator.rs:54-59): pops and applies operators until
      it pops a `(`, which is dropped; if the stack runs out first, that is
      not an error. */
  function CloseParen(st: Stacks): Result<Stacks>
    decreases |st.ops|
  {
    if st.ops == [] then Ok(st)
    else if Last(st.ops) == "(" then Ok(Stacks(st.values, DropLast(st.ops)))
    else
      match ApplyOp(st.values, Last(st.ops))
      case Err(e) => Err(e)
      case Ok(v) => CloseParen(Stacks(v, DropLast(st.ops)))
  }

  /** The operator loop (calculator.rs:61-67): pops and applies operators
      while the top one has precedence at least `p`. */
  function Reduce(st: Stacks, p: int): Result<Stacks>
    decreases |st.ops|
  {
    if st.ops == [] || Precedence(Last(st.ops)) < p then Ok(st)
    else
      match ApplyOp(st.values, Last(st.ops))
      case Err(e) => Err(e)
      case Ok(v) => Reduce(Stacks(v, DropLast(st.ops)), p)
  }

  /** The final loop (calculator.rs:75-77): pops and applies every
      remaining operator. */
  function Drain(st: Stacks): Result<Stacks>
    decreases |st.ops|
  {
    if st.ops == [] then Ok(st)
    else
      match ApplyOp(st.values, Last(st.ops))
      case Err(e) => Err(e)
      case Ok(v) => Drain(Stacks(v, DropLast(st.ops)))
  }

  /** One token of the main loop (calculator.rs:45-71), in the source's
      order of tests: a number, then a known variable, then `(`, `)`, an
      operator text, and anything else is an invalid token. */
  function Step(token: string, vars: Env, st: Stacks): Result<Stacks> {
    match ParseNum(token)
    case Some(x) => Ok(Stacks(st.values + [x], st.ops))
    case None =>
      if token in vars then Ok(Stacks(st.values + [vars[token]], st.ops))
      else if token == "(" then Ok(Stacks(st.values, st.ops + ["("]))
      else if token == ")" then CloseParen(st)
      else if IsOperatorText(token) then
        match Reduce(st, Precedence(token))
        case Err(e) => Err(e)
        case Ok(s) => Ok(Stacks(s.values, s.ops + [token]))
      else Err(InvalidToken)
  }

  /** The main loop over the tokens; the first error ends it. */
  function Run(tokens: seq<string>, vars: Env, st: Stacks): Result<Stacks>
    decreases |tokens|
  {
    if tokens == [] then Ok(st)
    else
      match Step(tokens[0], vars, st)
      case Err(e) => Err(e)
      case Ok(s) => Run(tokens[1..], vars, s)
  }

  /** What `eval_expr` returns: run the tokens from two empty stacks, drain
      the operator stack, and pop the top value (`Invalid expression` if
      there is none). */
  function Evaluate(tokens: seq<string>, vars: Env): Result<real> {
    match Run(tokens, vars, Stacks([], []))
    case Err(e) => Err(e)
    case Ok(st) =>
      match Drain(st)
      case Err(e) => Err(e)
      case Ok(fin) => if fin.values == [] then Err(InvalidExpression) else Ok(Last(fin.values))
  }

  /** `eval_expr` (calculator.rs:39-80). The variable map is passed by
      value: the evaluator can only read it. */
  method EvalExpr(tokens: seq<string>, vars: Env) returns (result: Result<real>)
    ensures result == Evaluate(tokens, vars)
  {
    var stack: seq<real> := [];
    var ops: seq<string> := [];
    var index := 0;
    while index < |tokens|
      invariant 0 <= index <= |tokens|
      invariant Run(tokens[index..], vars, Stacks(stack, ops)) == Run(tokens, vars, Stacks([], []))
    {
      var token := tokens[index];
      assert tokens[index..][0] == token && tokens[index..][1..] == tokens[index + 1..];
      ghost var before := Stacks(stack, ops);
      var num := ParseNum(token);
      if num.Some? {
        stack := stack + [num.value];
      } else if token in vars {
        stack := stack + [vars[token]];
      } else if token == "(" {
        ops := ops + [token];
      } else if token == ")" {
        while ops != []
          invariant CloseParen(Stacks(stack, ops)) == CloseParen(before)
          decreases |ops|
        {
          var op := Last(ops);
          ops := DropLast(ops);
          if op == "(" {
            break;
          }
          var outcome;
          stack, outcome := ApplyOperator(stack, op);
          if outcome.Err? {
            return Err(outcome.error);
          }
        }
        assert CloseParen(before) == Ok(Stacks(stack, ops));
      } else if IsOperatorText(token) {
        while ops != [] && Precedence(Last(ops)) >= Precedence(token)
          invariant Reduce(Stacks(stack, ops), Precedence(token)) == Reduce(before, Precedence(token))
          decreases |ops|
        {
          var op := Last(ops);
          ops := DropLast(ops);
          var outcome;
          stack, outcome := ApplyOperator(stack, op);
          if outcome.Err? {
            return Err(outcome.error);
          }
        }
        ops := ops + [token];
      } else {
        return Err(InvalidToken);
      }
      index := index + 1;
    }
    ghost var ran := Stacks(stack, ops);
    while ops != []
      invariant Drain(Stacks(stack, ops)) == Drain(ran)
      decreases |ops|
    {
      var op := Last(ops);
      ops := DropLast(ops);
      var outcome;
      stack, outcome := ApplyOperator(stack, op);
      if outcome.Err? {
        return Err(outcome.error);
      }
    }
    if stack == [] {
      return Err(InvalidExpression);
    }
    result := Ok(Last(stack));
  }
}
