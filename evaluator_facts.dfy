/** Properties of the evaluator of calculator.rs, stated on the functions
    that `EvalExpr` and `ApplyOperator` are proved to compute. */
module EvaluatorFacts {
  import opened Common
  import opened Numbers
  import opened Evaluator

  /** Every character of a substring occurs in the string. */
  lemma {:induction false} ContainedCharsOccur(hay: string, needle: string)
    requires Contains(hay, needle)
    ensures forall i :: 0 <= i < |needle| ==> needle[i] in hay
    decreases |hay|
  {
    if needle <= hay {
      assert forall i :: 0 <= i < |needle| ==> needle[i] == hay[i];
    } else {
      ContainedCharsOccur(hay[1..], needle);
      assert forall c :: c in hay[1..] ==> c in hay;
    }
  }

  /** Only strings made of the characters `+ - * /` pass the operator test:
      so `=`, `@`, parentheses and every name or number fail it. */
  lemma OperatorTextChars(token: string)
    requires IsOperatorText(token)
    ensures forall i :: 0 <= i < |token| ==> IsArithmetic([token[i]])
  {
    ContainedCharsOccur("+-*/", token);
  }

  /** The four operators pass the operator test, and have the precedences
      1 (`+`, `-`) and 2 (`*`, `/`); every other string has precedence 0,
      in particular `(`. */
  lemma OperatorTable()
    ensures IsOperatorText("+") && IsOperatorText("-") && IsOperatorText("*") && IsOperatorText("/")
    ensures Precedence("+") == Precedence("-") == 1
    ensures Precedence("*") == Precedence("/") == 2
    ensures forall op :: !IsArithmetic(op) ==> Precedence(op) == 0
  {
    assert "+" <= "+-*/";
    assert "-*/" == "+-*/"[1..] && "-" <= "-*/";
    assert "*/" == "-*/"[1..] && "*" <= "*/";
    assert "/" == "*/"[1..] && "/" <= "/";
  }

  /** Each of the four operators passes the operator test. */
  lemma ArithmeticIsOperatorText(op: string)
    requires IsArithmetic(op)
    ensures IsOperatorText(op)
  {
    OperatorTable();
  }

  /** The operator loop only pops: what it leaves on the operator stack is a
      prefix of what was there, every operator it popped consumed exactly
      one value, and it stopped at an operator of lower precedence than the
      incoming one or at the bottom. */
  lemma {:induction false} ReduceShape(st: Stacks, p: int)
    requires Reduce(st, p).Ok?
    ensures var r := Reduce(st, p).value;
      |r.ops| <= |st.ops| && r.ops == st.ops[..|r.ops|]
      && |r.values| + (|st.ops| - |r.ops|) == |st.values|
      && (r.ops == [] || Precedence(Last(r.ops)) < p)
    decreases |st.ops|
  {
    if st.ops == [] || Precedence(Last(st.ops)) < p {
    } else {
      var v := ApplyOp(st.values, Last(st.ops)).value;
      ReduceShape(Stacks(v, DropLast(st.ops)), p);
    }
  }

  /** An incoming operator never pops past a `(`: with a precedence of at
      least 1 (that of each of `+ - * /`), the operator loop leaves every
      open parenthesis, and everything below it, in place. */
  lemma {:induction false} ReduceStopsAtParen(st: Stacks, p: int, i: nat)
    requires p >= 1 && i < |st.ops| && st.ops[i] == "("
    requires Reduce(st, p).Ok?
    ensures |Reduce(st, p).value.ops| > i
    ensures Reduce(st, p).value.ops[..i + 1] == st.ops[..i + 1]
    decreases |st.ops|
  {
    if st.ops == [] || Precedence(Last(st.ops)) < p {
    } else {
      assert Last(st.ops) != "(";
      var v := ApplyOp(st.values, Last(st.ops)).value;
      var rest := DropLast(st.ops);
      assert i < |rest| && rest[i] == "(";
      ReduceStopsAtParen(Stacks(v, rest), p, i);
      assert rest[..i + 1] == st.ops[..i + 1];
    }
  }

  /** The `)` loop only pops: it leaves a prefix of the operator stack. */
  lemma {:induction false} CloseParenShape(st: Stacks)
    requires CloseParen(st).Ok?
    ensures var r := CloseParen(st).value;
      |r.ops| <= |st.ops| && r.ops == st.ops[..|r.ops|]
    decreases |st.ops|
  {
    if st.ops == [] || Last(st.ops) == "(" {
    } else {
      var v := ApplyOp(st.values, Last(st.ops)).value;
      CloseParenShape(Stacks(v, DropLast(st.ops)));
    }
  }

  /** An unmatched `)` is not an error: when no `(` is on the operator
      stack, the `)` loop applies every pending operator, exactly as the
      final loop does. */
  lemma {:induction false} UnmatchedCloseDrains(st: Stacks)
    requires forall i :: 0 <= i < |st.ops| ==> st.ops[i] != "("
    ensures CloseParen(st) == Drain(st)
    decreases |st.ops|
  {
    if st.ops != [] {
      assert Last(st.ops) != "(";
      match ApplyOp(st.values, Last(st.ops))
      case Err(e) =>
      case Ok(v) => UnmatchedCloseDrains(Stacks(v, DropLast(st.ops)));
    }
  }

  /** The final loop empties the operator stack. */
  lemma {:induction false} DrainEmpties(st: Stacks)
    requires Drain(st).Ok?
    ensures Drain(st).value.ops == []
    decreases |st.ops|
  {
    if st.ops != [] {
      var v := ApplyOp(st.values, Last(st.ops)).value;
      DrainEmpties(Stacks(v, DropLast(st.ops)));
    }
  }

  /** No `(` waits on the operator stack. */
  predicate NoOpenParen(ops: seq<string>) {
    forall i :: 0 <= i < |ops| ==> ops[i] != "("
  }

  /** A `)` at the end of a line, read when no `(` is open, changes
      nothing: it drains the operator stack as the final loop would have. */
  lemma TrailingCloseIgnored(tokens: seq<string>, vars: Env)
    requires ")" !in vars
    requires Run(tokens, vars, Stacks([], [])).Ok? ==> NoOpenParen(Run(tokens, vars, Stacks([], [])).value.ops)
    ensures Evaluate(tokens + [")"], vars) == Evaluate(tokens, vars)
  {
    RunAppend(tokens, [")"], vars, Stacks([], []));
    match Run(tokens, vars, Stacks([], []))
    case Err(e) =>
    case Ok(st) =>
      NotANumber(")");
      assert Step(")", vars, st) == CloseParen(st);
      assert [")"][1..] == [];
      UnmatchedCloseDrains(st);
      if Drain(st).Ok? {
        DrainEmpties(st);
      }
  }

  /** The shunting-yard invariant of the operator stack: reading upwards,
      each entry that is not a `(` has a strictly higher precedence than
      the entry below it. With two precedence levels, at most two
      operators wait between two parentheses. */
  ghost predicate OpsOrdered(ops: seq<string>) {
    forall i :: 0 < i < |ops| ==> ops[i] == "(" || Precedence(ops[i - 1]) < Precedence(ops[i])
  }

  lemma PrefixOrdered(ops: seq<string>, n: nat)
    requires OpsOrdered(ops) && n <= |ops|
    ensures OpsOrdered(ops[..n])
  {
  }

  /** Each token keeps the operator stack ordered. */
  lemma StepKeepsOrder(token: string, vars: Env, st: Stacks)
    requires OpsOrdered(st.ops)
    requires Step(token, vars, st).Ok?
    ensures OpsOrdered(Step(token, vars, st).value.ops)
  {
    if ParseNum(token).None? && token !in vars {
      if token == ")" {
        CloseParenShape(st);
        PrefixOrdered(st.ops, |CloseParen(st).value.ops|);
      } else if token != "(" {
        ReduceShape(st, Precedence(token));
        PrefixOrdered(st.ops, |Reduce(st, Precedence(token)).value.ops|);
      }
    }
  }

  /** The operator stack stays ordered through any run of tokens. */
  lemma {:induction false} RunKeepsOrder(tokens: seq<string>, vars: Env, st: Stacks)
    requires OpsOrdered(st.ops)
    requires Run(tokens, vars, st).Ok?
    ensures OpsOrdered(Run(tokens, vars, st).value.ops)
    decreases |tokens|
  {
    if tokens != [] {
      StepKeepsOrder(tokens[0], vars, st);
      RunKeepsOrder(tokens[1..], vars, Step(tokens[0], vars, st).value);
    }
  }

  /** Goes on reading `tokens` after an outcome: an error stays. */
  function RunOn(res: Result<Stacks>, tokens: seq<string>, vars: Env): Result<Stacks> {
    match res
    case Err(e) => Err(e)
    case Ok(s) => Run(tokens, vars, s)
  }

  /** Reading `a + b` is reading `a`, then reading `b` from where `a` left
      the stacks; an error in `a` ends the run. */
  lemma {:induction false} RunAppend(a: seq<string>, b: seq<string>, vars: Env, st: Stacks)
    ensures Run(a + b, vars, st) == RunOn(Run(a, vars, st), b, vars)
    decreases |a|
  {
    if a == [] {
      assert a + b == b;
    } else {
      assert (a + b)[0] == a[0] && (a + b)[1..] == a[1..] + b;
      match Step(a[0], vars, st)
      case Err(e) =>
      case Ok(s) => RunAppend(a[1..], b, vars, s);
    }
  }

  /** A token that is not a number, not a known variable, not a parenthesis
      and not an operator text (for instance `=` or `@`) ends the evaluation
      with `Invalid token` once it is reached. */
  lemma InvalidTokenAborts(tokens: seq<string>, vars: Env, i: nat)
    requires i < |tokens|
    requires Run(tokens[..i], vars, Stacks([], [])).Ok?
    requires ParseNum(tokens[i]).None? && tokens[i] !in vars
    requires tokens[i] != "(" && tokens[i] != ")" && !IsOperatorText(tokens[i])
    ensures Evaluate(tokens, vars) == Err(InvalidToken)
  {
    var st := Run(tokens[..i], vars, Stacks([], [])).value;
    assert Step(tokens[i], vars, st) == Err(InvalidToken);
    assert tokens[i..][0] == tokens[i];
    assert Run(tokens[i..], vars, st) == Err(InvalidToken);
    RunAppend(tokens[..i], tokens[i..], vars, Stacks([], []));
    assert tokens[..i] + tokens[i..] == tokens;
  }
}
